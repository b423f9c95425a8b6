/** The process-wide constant set of fuel types that count as clean energy. */
module CleanFuels {
  import opened FuelTypes

  /** `CleanFuels.CLEAN`: a static final EnumSet that nothing mutates, so a constant here. */
  const Clean: set<FuelType> := {BIOMASS, NUCLEAR, HYDRO, WIND, SOLAR}

  predicate IsClean(f: FuelType)
  {
    f in Clean
  }

  /** The order in which an EnumSet hands out its members: declaration order. */
  function IterationOrder(s: set<FuelType>): (r: seq<FuelType>)
  {
    Keep(AllFuels, s)
  }

  /** The entries of `fs` that belong to `s`, in their order in `fs`. */
  function Keep(fs: seq<FuelType>, s: set<FuelType>): seq<FuelType>
  {
    if fs == [] then [] else (if fs[0] in s then [fs[0]] else []) + Keep(fs[1..], s)
  }

  /** Iteration visits exactly the members of the set, in increasing ordinal. */
  lemma IterationOrderFacts(s: set<FuelType>)
    ensures forall f :: f in IterationOrder(s) <==> f in s
    ensures IncreasingOrdinals(IterationOrder(s))
  {
    AllFuelsComplete();
    KeepMembers(AllFuels, s);
    KeepIncreasing(AllFuels, s);
  }

  predicate IncreasingOrdinals(r: seq<FuelType>)
  {
    forall i, j :: 0 <= i < j < |r| ==> Ordinal(r[i]) < Ordinal(r[j])
  }

  lemma {:induction false} KeepMembers(fs: seq<FuelType>, s: set<FuelType>)
    ensures forall f :: f in Keep(fs, s) <==> f in s && f in fs
  {
    if fs != [] {
      KeepMembers(fs[1..], s);
      assert fs == [fs[0]] + fs[1..];
    }
  }

  lemma {:induction false} KeepIncreasing(fs: seq<FuelType>, s: set<FuelType>)
    requires IncreasingOrdinals(fs)
    ensures IncreasingOrdinals(Keep(fs, s))
  {
    if fs != [] {
      KeepIncreasing(fs[1..], s);
      KeepMembers(fs[1..], s);
      var rest := Keep(fs[1..], s);
      forall f | f in rest ensures Ordinal(fs[0]) < Ordinal(f) {
        var k :| 0 <= k < |fs[1..]| && fs[1..][k] == f;
        assert fs[k + 1] == f;
      }
      var r := Keep(fs, s);
      if fs[0] in s {
        assert r == [fs[0]] + rest;
        forall i, j | 0 <= i < j < |r| ensures Ordinal(r[i]) < Ordinal(r[j]) {
          assert r[j] == rest[j - 1] && r[j] in rest;
          if i > 0 { assert r[i] == rest[i - 1]; }
        }
      } else {
        assert r == rest;
      }
    }
  }

  /** CLEAN holds exactly BIOMASS, NUCLEAR, HYDRO, WIND and SOLAR, and iterating it
      visits them in that order: the order in which the clean averages are summed. */
  lemma CleanIterationOrder()
    ensures IterationOrder(Clean) == [BIOMASS, NUCLEAR, HYDRO, WIND, SOLAR]
  {
    CleanTail();
    KeepCons(NUCLEAR, [HYDRO, WIND, SOLAR, IMPORTS, OTHER], Clean);
    KeepCons(BIOMASS, [NUCLEAR, HYDRO, WIND, SOLAR, IMPORTS, OTHER], Clean);
    KeepCons(COAL, [BIOMASS, NUCLEAR, HYDRO, WIND, SOLAR, IMPORTS, OTHER], Clean);
    KeepCons(GAS, [COAL, BIOMASS, NUCLEAR, HYDRO, WIND, SOLAR, IMPORTS, OTHER], Clean);
  }

  /** The clean members among the last five constants, in declaration order. */
  lemma CleanTail()
    ensures Keep([HYDRO, WIND, SOLAR, IMPORTS, OTHER], Clean) == [HYDRO, WIND, SOLAR]
  {
    KeepCons(OTHER, [], Clean);
    KeepCons(IMPORTS, [OTHER], Clean);
    KeepCons(SOLAR, [IMPORTS, OTHER], Clean);
    KeepCons(WIND, [SOLAR, IMPORTS, OTHER], Clean);
    KeepCons(HYDRO, [WIND, SOLAR, IMPORTS, OTHER], Clean);
  }

  /** One step of the filter on a list given by its head and tail. */
  lemma KeepCons(x: FuelType, rest: seq<FuelType>, s: set<FuelType>)
    ensures Keep([x] + rest, s) == (if x in s then [x] else []) + Keep(rest, s)
  {
    assert ([x] + rest)[1..] == rest;
  }

  /** GAS, COAL, IMPORTS and OTHER are the non-clean fuels: clean and non-clean partition the enum. */
  lemma CleanPartition(f: FuelType)
    ensures IsClean(f) <==> f != GAS && f != COAL && f != IMPORTS && f != OTHER
  {
  }
}
