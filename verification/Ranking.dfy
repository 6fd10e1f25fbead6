/**
  How models are ranked (internal/models/tiers.go, internal/router/router.go): every comparison used
  is a strict weak order, so the stable sort of a list is a well-defined rearrangement of it.
 */
module Ranking {

  // Stable sorting

  ghost predicate StrictWeak<T(!new)>(less: (T, T) -> bool) {
    && (forall a :: !less(a, a))
    && (forall a, b, c :: less(a, b) && less(b, c) ==> less(a, c))
    && (forall a, b, c :: less(a, c) ==> less(a, b) || less(b, c))
  }

  predicate Tied<T>(less: (T, T) -> bool, a: T, b: T) {
    !less(a, b) && !less(b, a)
  }

  function Insert<T>(less: (T, T) -> bool, x: T, s: seq<T>): seq<T> {
    if s == [] || !less(s[0], x) then [x] + s else [s[0]] + Insert(less, x, s[1..])
  }

  function Sort<T>(less: (T, T) -> bool, s: seq<T>): (r: seq<T>)
    ensures |r| == |s|
  {
    if s == [] then [] else
      InsertLength(less, s[0], Sort(less, s[1..]));
      Insert(less, s[0], Sort(less, s[1..]))
  }

  lemma InsertLength<T>(less: (T, T) -> bool, x: T, s: seq<T>)
    ensures |Insert(less, x, s)| == |s| + 1
  {}

  ghost predicate IsSorted<T(!new)>(less: (T, T) -> bool, s: seq<T>) {
    s != [] ==> (forall x | x in s[1..] :: !less(x, s[0])) && IsSorted(less, s[1..])
  }

  /** The elements tied with `z`, in their order. */
  function TiedWith<T>(less: (T, T) -> bool, z: T, s: seq<T>): seq<T> {
    if s == [] then []
    else (if Tied(less, z, s[0]) then [s[0]] else []) + TiedWith(less, z, s[1..])
  }

  /** A stable sort: in order, and every group of tied elements is as it was. */
  ghost predicate IsStableSort<T(!new)>(less: (T, T) -> bool, s: seq<T>, r: seq<T>) {
    IsSorted(less, r) && forall z :: TiedWith(less, z, r) == TiedWith(less, z, s)
  }

  lemma InsertMembers<T>(less: (T, T) -> bool, x: T, s: seq<T>, y: T)
    ensures y in Insert(less, x, s) <==> y == x || y in s
  {}

  lemma {:induction false} InsertSorts<T(!new)>(less: (T, T) -> bool, x: T, s: seq<T>)
    requires StrictWeak(less) && IsSorted(less, s)
    ensures IsSorted(less, Insert(less, x, s))
  {
    var r := Insert(less, x, s);
    if s == [] || !less(s[0], x) {
      assert r[1..] == s;
      forall y | y in s ensures !less(y, x) {
        if s != [] && y != s[0] {
          assert y in s[1..] && !less(y, s[0]);
        }
      }
    } else {
      InsertSorts(less, x, s[1..]);
      assert r[1..] == Insert(less, x, s[1..]);
      forall y | y in r[1..] ensures !less(y, s[0]) {
        InsertMembers(less, x, s[1..], y);
      }
    }
  }

  /** Nothing is tied with two elements of which one comes before the other. */
  lemma TiesAreApart<T(!new)>(less: (T, T) -> bool, z: T, x: T, y: T)
    requires StrictWeak(less) && less(y, x)
    ensures !(Tied(less, z, x) && Tied(less, z, y))
  {}

  lemma TiedHead<T>(less: (T, T) -> bool, z: T, y: T, s: seq<T>)
    ensures TiedWith(less, z, [y] + s) == (if Tied(less, z, y) then [y] else []) + TiedWith(less, z, s)
  {
    assert ([y] + s)[1..] == s;
  }

  lemma {:induction false} InsertKeepsTies<T(!new)>(less: (T, T) -> bool, x: T, s: seq<T>, z: T)
    requires StrictWeak(less)
    ensures TiedWith(less, z, Insert(less, x, s)) == (if Tied(less, z, x) then [x] else []) + TiedWith(less, z, s)
  {
    hide StrictWeak, Tied, TiedWith;
    if s == [] || !less(s[0], x) {
      TiedHead(less, z, x, s);
    } else {
      InsertKeepsTies(less, x, s[1..], z);
      TiesAreApart(less, z, x, s[0]);
      TiedHead(less, z, s[0], Insert(less, x, s[1..]));
      TiedHead(less, z, s[0], s[1..]);
      assert s == [s[0]] + s[1..];
    }
  }

  /** Sorting is stable ... */
  lemma {:induction false} SortIsStable<T(!new)>(less: (T, T) -> bool, s: seq<T>)
    requires StrictWeak(less)
    ensures IsStableSort(less, s, Sort(less, s))
  {
    if s != [] {
      SortIsStable(less, s[1..]);
      InsertSorts(less, s[0], Sort(less, s[1..]));
      forall z ensures TiedWith(less, z, Sort(less, s)) == TiedWith(less, z, s) {
        InsertKeepsTies(less, s[0], Sort(less, s[1..]), z);
      }
    }
  }

  lemma TiedMembers<T>(less: (T, T) -> bool, z: T, s: seq<T>, x: T)
    ensures x in TiedWith(less, z, s) <==> x in s && Tied(less, z, x)
  {}

  /** The head of a sorted list comes before everything in a list with the same ties. */
  lemma HeadIsLeast<T(!new)>(less: (T, T) -> bool, s: seq<T>, t: seq<T>)
    requires StrictWeak(less) && IsSorted(less, s) && s != [] && t != []
    requires TiedWith(less, t[0], s) == TiedWith(less, t[0], t)
    ensures !less(t[0], s[0])
  {
    TiedMembers(less, t[0], t, t[0]);
    TiedMembers(less, t[0], s, TiedWith(less, t[0], s)[0]);
    var y := TiedWith(less, t[0], s)[0];
    assert y in s && Tied(less, t[0], y);
    if y != s[0] {
      assert y in s[1..];
    }
  }

  /** ... and there is only one stable sort of a list. */
  lemma {:induction false} StableSortIsUnique<T(!new)>(less: (T, T) -> bool, s: seq<T>, t: seq<T>)
    requires StrictWeak(less) && IsSorted(less, s) && IsSorted(less, t)
    requires forall z :: TiedWith(less, z, s) == TiedWith(less, z, t)
    ensures s == t
  {
    if s == [] {
      if t != [] {
        TiedMembers(less, t[0], t, t[0]);
      }
    } else if t == [] {
      TiedMembers(less, s[0], s, s[0]);
    } else {
      HeadIsLeast(less, s, t);
      HeadIsLeast(less, t, s);
      assert Tied(less, s[0], t[0]);
      assert TiedWith(less, s[0], s)[0] == s[0] && TiedWith(less, s[0], t)[0] == t[0];
      forall z ensures TiedWith(less, z, s[1..]) == TiedWith(less, z, t[1..]) {
        TailTies(less, z, s);
        TailTies(less, z, t);
      }
      StableSortIsUnique(less, s[1..], t[1..]);
    }
  }

  lemma TailTies<T>(less: (T, T) -> bool, z: T, s: seq<T>)
    requires s != []
    ensures TiedWith(less, z, s[1..]) == TiedWith(less, z, s)[if Tied(less, z, s[0]) then 1 else 0..]
  {}

  lemma {:induction false} SortMembers<T>(less: (T, T) -> bool, s: seq<T>, x: T)
    ensures x in Sort(less, s) <==> x in s
    ensures multiset(Sort(less, s)) == multiset(s)
  {
    if s != [] {
      SortMembers(less, s[1..], x);
      InsertMembers(less, s[0], Sort(less, s[1..]), x);
      InsertIsAddition(less, s[0], Sort(less, s[1..]));
      assert s == [s[0]] + s[1..];
    }
  }

  lemma {:induction false} InsertIsAddition<T>(less: (T, T) -> bool, x: T, s: seq<T>)
    ensures multiset(Insert(less, x, s)) == multiset(s) + multiset{x}
  {
    if s != [] && less(s[0], x) {
      InsertIsAddition(less, x, s[1..]);
      assert s == [s[0]] + s[1..];
    }
  }

  // The rankings

  datatype Level = Quick | Standard | Deep

  /** What the catalog says about a model; prices are per million tokens. */
  datatype Model = Model(id: string, input: real, output: real, tools: bool, reasoning: bool)

  function Price(m: Model): real {
    m.input + 3.0 * m.output
  }

  predicate Unpriced(m: Model) {
    m.input == 0.0 && m.output == 0.0
  }

  /** The comparison of a complexity tier: is `a` tried before `b`? */
  predicate Before(level: Level, def: string, cheap: string, a: Model, b: Model) {
    match level
    case Deep =>
      if a.reasoning != b.reasoning then a.reasoning
      else if Unpriced(a) != Unpriced(b) then Unpriced(b)
      else Price(a) > Price(b)
    case Quick =>
      if a.tools != b.tools then a.tools
      else if (a.id == cheap) != (b.id == cheap) then a.id == cheap
      else if Unpriced(a) != Unpriced(b) then Unpriced(a)
      else Price(a) < Price(b)
    case Standard =>
      if (a.id == def) != (b.id == def) then a.id == def
      else if a.tools != b.tools then a.tools
      else if Unpriced(a) != Unpriced(b) then Unpriced(b)
      else Price(a) < Price(b)
  }

  function TierOrder(level: Level, def: string, cheap: string): (Model, Model) -> bool {
    (a, b) => Before(level, def, cheap, a, b)
  }

  lemma TierIsStrictWeak(level: Level, def: string, cheap: string)
    ensures StrictWeak(TierOrder(level, def, cheap))
  {
    var less := TierOrder(level, def, cheap);
    forall a, b, c ensures less(a, b) && less(b, c) ==> less(a, c) {}
    forall a, b, c ensures less(a, c) ==> less(a, b) || less(b, c) {}
  }

  function Tier(list: seq<Model>, level: Level, def: string, cheap: string): seq<Model> {
    Sort(TierOrder(level, def, cheap), list)
  }

  /** A tier is the one stable rearrangement of the catalog in the order of its level. */
  lemma TierIsTheStableSort(list: seq<Model>, level: Level, def: string, cheap: string, r: seq<Model>)
    ensures multiset(Tier(list, level, def, cheap)) == multiset(list)
    ensures IsStableSort(TierOrder(level, def, cheap), list, r) <==> r == Tier(list, level, def, cheap)
  {
    var less := TierOrder(level, def, cheap);
    TierIsStrictWeak(level, def, cheap);
    SortIsStable(less, list);
    if list != [] {
      SortMembers(less, list, list[0]);
    }
    hide Before;
    if IsStableSort(less, list, r) {
      StableSortIsUnique(less, r, Sort(less, list));
    }
  }

  /** Every tier of a provider has the same models. */
  lemma TiersHaveTheSameModels(list: seq<Model>, level: Level, other: Level, def: string, cheap: string, m: Model)
    ensures m in Tier(list, level, def, cheap) <==> m in Tier(list, other, def, cheap)
    ensures m in Tier(list, level, def, cheap) <==> m in list
  {
    SortMembers(TierOrder(level, def, cheap), list, m);
    SortMembers(TierOrder(other, def, cheap), list, m);
  }

  /** What a tier promises of two of its models, the first of which is tried first. */
  predicate StandsBefore(level: Level, def: string, cheap: string, a: Model, b: Model) {
    var priced := a.input != 0.0 || a.output != 0.0 || (b.input == 0.0 && b.output == 0.0);
    var free := (a.input == 0.0 && a.output == 0.0) || b.input != 0.0 || b.output != 0.0;
    var cheaper := a.input + 3.0 * a.output <= b.input + 3.0 * b.output;
    var dearer := a.input + 3.0 * a.output >= b.input + 3.0 * b.output;
    match level
    case Deep =>
      && (b.reasoning ==> a.reasoning)
      && (a.reasoning == b.reasoning ==> priced && (priced && free ==> dearer))
    case Quick =>
      && (b.tools ==> a.tools)
      && (a.tools == b.tools ==>
            && (b.id == cheap ==> a.id == cheap)
            && ((a.id == cheap <==> b.id == cheap) ==> free && (priced && free ==> cheaper)))
    case Standard =>
      && (b.id == def ==> a.id == def)
      && ((a.id == def <==> b.id == def) ==>
            && (b.tools ==> a.tools)
            && (a.tools == b.tools ==> priced && (priced && free ==> cheaper)))
  }

  /** Whatever comes later in a sorted list does not come before. */
  lemma {:induction false} SortedPairs<T(!new)>(less: (T, T) -> bool, s: seq<T>, i: nat, j: nat)
    requires IsSorted(less, s) && i < j < |s|
    ensures !less(s[j], s[i])
  {
    if i == 0 {
      assert s[j] in s[1..];
    } else {
      SortedPairs(less, s[1..], i - 1, j - 1);
    }
  }

  /**
    A tier in terms of its models: the deepest has reasoning models first and dear ones before cheap
    ones; the quickest has models with tools first, then the provider's cheap model, then by rising
    price; the standard one has the default first, then models with tools, then by rising price.
   */
  lemma TierRanks(list: seq<Model>, level: Level, def: string, cheap: string, i: nat, j: nat)
    requires i < j < |list|
    ensures var r := Tier(list, level, def, cheap); |r| == |list| && StandsBefore(level, def, cheap, r[i], r[j])
  {
    var less := TierOrder(level, def, cheap);
    TierIsStrictWeak(level, def, cheap);
    SortIsStable(less, list);
    SortedPairs(less, Sort(less, list), i, j);
    hide Sort, IsStableSort;
  }

  // Pools

  datatype Strategy = Priority | Quality | Fast | Cheap | Balanced

  /** A pool's comparison of what the catalog knows about two of its models. */
  predicate PoolBefore(level: Level, a: Model, b: Model) {
    if level == Deep then
      if a.reasoning != b.reasoning then a.reasoning else Price(a) > Price(b)
    else
      if a.tools != b.tools then a.tools else Price(a) < Price(b)
  }

  function LevelOf(strategy: Strategy): Level {
    match strategy
    case Quality => Deep
    case Fast => Quick
    case Cheap => Quick
    case _ => Standard
  }

  function PoolOrder<C>(level: Level, meta: C -> Model): (C, C) -> bool {
    (a, b) => PoolBefore(level, meta(a), meta(b))
  }

  /** The candidates in the order a pool asks for. */
  function Ordered<C>(candidates: seq<C>, strategy: Strategy, meta: C -> Model): seq<C> {
    if strategy == Priority then candidates else Sort(PoolOrder(LevelOf(strategy), meta), candidates)
  }

  lemma PoolIsStrictWeak<C(!new)>(level: Level, meta: C -> Model)
    ensures StrictWeak(PoolOrder(level, meta))
  {
    var less := PoolOrder(level, meta);
    forall a, b, c ensures less(a, b) && less(b, c) ==> less(a, c) {}
    forall a, b, c ensures less(a, c) ==> less(a, b) || less(b, c) {}
  }

  /** Written order is kept; any other strategy is the one stable rearrangement in its order. */
  lemma OrderedIsTheStableSort<C(!new)>(candidates: seq<C>, strategy: Strategy, meta: C -> Model, r: seq<C>)
    ensures multiset(Ordered(candidates, strategy, meta)) == multiset(candidates)
    ensures strategy != Priority ==>
      (IsStableSort(PoolOrder(LevelOf(strategy), meta), candidates, r) <==> r == Ordered(candidates, strategy, meta))
  {
    if strategy != Priority {
      var less := PoolOrder(LevelOf(strategy), meta);
      PoolIsStrictWeak(LevelOf(strategy), meta);
      SortIsStable(less, candidates);
      if candidates != [] {
        SortMembers(less, candidates, candidates[0]);
      }
      hide PoolBefore;
      if IsStableSort(less, candidates, r) {
        StableSortIsUnique(less, r, Sort(less, candidates));
      }
    }
  }

  /** What a pool promises of two of its models, the first of which is tried first. */
  predicate PoolStandsBefore(strategy: Strategy, a: Model, b: Model) {
    var cheaper := a.input + 3.0 * a.output <= b.input + 3.0 * b.output;
    var dearer := a.input + 3.0 * a.output >= b.input + 3.0 * b.output;
    match strategy
    case Priority => true
    case Quality => (b.reasoning ==> a.reasoning) && (a.reasoning == b.reasoning ==> dearer)
    case _ => (b.tools ==> a.tools) && (a.tools == b.tools ==> cheaper)
  }

  /**
    A pool in terms of its models: as written; for quality reasoning models first and dear ones before
    cheap ones; otherwise models with tools first and then by rising price.
   */
  lemma PoolRanks<C(!new)>(candidates: seq<C>, strategy: Strategy, meta: C -> Model, i: nat, j: nat)
    requires i < j < |candidates|
    ensures
      var r := Ordered(candidates, strategy, meta);
      |r| == |candidates| && PoolStandsBefore(strategy, meta(r[i]), meta(r[j]))
    ensures strategy == Priority ==> Ordered(candidates, strategy, meta) == candidates
  {
    if strategy != Priority {
      var less := PoolOrder(LevelOf(strategy), meta);
      PoolIsStrictWeak(LevelOf(strategy), meta);
      SortIsStable(less, candidates);
      SortedPairs(less, Sort(less, candidates), i, j);
    }
    hide Sort, IsStableSort;
  }
}
