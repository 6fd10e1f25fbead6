/**
  Planning which model on which key serves a request (internal/router/router.go): an imperative
  planner that skips what it has seen, sets aside what cannot be used and stops at a cap, proved
  against "the first few usable ones of the distinct choices". Keys, prices, budgets, health and the
  catalog are a fixed `World`.
 */
module Routing {
  import opened Text
  import opened Ranking

  datatype Why = Pinned | Default | Fallback | ByTier | LastGasp

  /** One choice the planner looks at: a model on a key, or a model no key can pay for. */
  datatype Item =
    | Choice(provider: string, model: string, cred: string, why: Why)
    | NoKey(provider: string, model: string, why: Why)

  datatype Candidate = Candidate(provider: string, model: string)

  datatype World = World(
    keys: map<string, seq<string>>,                // the keys that can pay, by provider, default first
    catalog: string -> seq<Model>,                 // a provider's models
    meta: Candidate -> Model,
    preferred: string -> string,                   // a provider's default model in the catalog
    cheap: string -> string,
    fallback: string -> string,                    // the configured default model, "" if none
    unusable: (string, string, string) -> string,  // why a provider's model cannot be used on a key, "" if it can
    display: Item -> string,                       // the name under which a choice is shown
    configured: string,                            // the configured provider
    others: seq<string>)                           // the providers in the order the map gives them

  // The planner's specification

  function KeyOf(i: Item): string
    requires i.Choice?
  {
    i.provider + "/" + i.model + "/" + i.cred
  }

  function KeysOf(items: seq<Item>): set<string> {
    if items == [] then {}
    else
      var (earlier, last) := (items[..|items| - 1], items[|items| - 1]);
      KeysOf(earlier) + if last.Choice? then {KeyOf(last)} else {}
  }

  /** A choice whose key was not looked at before. */
  predicate IsNew(items: seq<Item>, i: Item) {
    i.Choice? && KeyOf(i) !in KeysOf(items)
  }

  /** The first choice of every key. */
  function Distinct(items: seq<Item>): seq<Item> {
    if items == [] then []
    else
      var (earlier, last) := (items[..|items| - 1], items[|items| - 1]);
      Distinct(earlier) + if IsNew(earlier, last) then [last] else []
  }

  predicate CanServe(w: World, i: Item) {
    i.Choice? && w.unusable(i.provider, i.model, i.cred) == ""
  }

  function Usable(w: World, items: seq<Item>): seq<Item> {
    if items == [] then []
    else Usable(w, items[..|items| - 1]) + if CanServe(w, items[|items| - 1]) then [items[|items| - 1]] else []
  }

  function Take<T>(s: seq<T>, n: nat): seq<T> {
    if |s| <= n then s else s[..n]
  }

  /** What a plan offers: the first `max` usable ones of the distinct choices. */
  function Routes(w: World, items: seq<Item>, max: nat): seq<Item> {
    Take(Usable(w, Distinct(items)), max)
  }

  /** What a plan sets aside: models without a key, and unusable choices met before the plan is full. */
  predicate SetsAside(w: World, items: seq<Item>, i: Item, max: nat) {
    i.NoKey? || (IsNew(items, i) && !CanServe(w, i) && |Routes(w, items, max)| < max)
  }

  function Blocked(w: World, items: seq<Item>, max: nat): seq<Item> {
    if items == [] then []
    else
      var (earlier, last) := (items[..|items| - 1], items[|items| - 1]);
      Blocked(w, earlier, max) + if SetsAside(w, earlier, last, max) then [last] else []
  }

  lemma LastOf<T>(s: seq<T>, x: T)
    ensures (s + [x])[..|s + [x]| - 1] == s && (s + [x])[|s + [x]| - 1] == x
  {}

  lemma TakeOneMore<T>(s: seq<T>, x: T, n: nat)
    ensures Take(s + [x], n) == Take(s, n) + if |Take(s, n)| < n then [x] else []
  {}

  /** How the specification grows with one more choice. */
  lemma OneMore(w: World, items: seq<Item>, i: Item, max: nat)
    ensures KeysOf(items + [i]) == KeysOf(items) + if i.Choice? then {KeyOf(i)} else {}
    ensures Routes(w, items + [i], max) == Routes(w, items, max)
      + if IsNew(items, i) && CanServe(w, i) && |Routes(w, items, max)| < max then [i] else []
    ensures Blocked(w, items + [i], max) == Blocked(w, items, max) + if SetsAside(w, items, i, max) then [i] else []
  {
    LastOf(items, i);
    LastOf(Distinct(items), i);
    var d := Distinct(items);
    hide KeyOf, CanServe, IsNew, Take, SetsAside;
    if IsNew(items, i) {
      TakeOneMore(Usable(w, d), i, max);
      assert Distinct(items + [i]) == d + [i];
      assert Usable(w, d) + [] == Usable(w, d);
      assert Usable(w, d + [i]) == Usable(w, d) + if CanServe(w, i) then [i] else [];
      assert Take(Usable(w, d), max) + [] == Take(Usable(w, d), max);
    } else {
      assert Distinct(items + [i]) == d + [] == d;
    }
  }

  /** A choice that was set aside, and why. */
  datatype Refusal = Refusal(item: Item, reason: string)

  function ReasonOf(w: World, i: Item): string {
    if i.NoKey? then "no usable key for " + i.provider else w.unusable(i.provider, i.model, i.cred)
  }

  function Refusals(w: World, items: seq<Item>): (r: seq<Refusal>)
    ensures |r| == |items| && forall k | 0 <= k < |items| :: r[k] == Refusal(items[k], ReasonOf(w, items[k]))
  {
    if items == [] then [] else [Refusal(items[0], ReasonOf(w, items[0]))] + Refusals(w, items[1..])
  }

  // The planner

  class Plan {
    const w: World
    const max: nat
    const level: Level
    var routes: seq<Item>
    var blocked: seq<Refusal>
    var reason: string  // why there is no route
    var seen: set<string>
    var nextIndex: nat
    ghost var looked: seq<Item>  // every choice looked at

    ghost predicate Valid()
      reads this
    {
      && routes == Routes(w, looked, max) && blocked == Refusals(w, Blocked(w, looked, max))
      && (|routes| < max ==> seen == KeysOf(looked))
    }

    constructor (w: World, max: nat, level: Level)
      ensures Valid() && this.w == w && this.max == max && this.level == level && looked == []
      ensures nextIndex == 0 && reason == ""
    {
      this.w, this.max, this.level := w, max, level;
      routes, blocked, reason, seen, nextIndex, looked := [], [], "", {}, 0, [];
    }

    /** The closure that adds one choice. */
    method Add(provider: string, model: string, why: Why, cred: string)
      requires Valid()
      modifies this`routes, this`blocked, this`seen, this`looked
      ensures Valid() && looked == old(looked) + [Choice(provider, model, cred, why)]
    {
      hide KeysOf, Routes, Blocked;
      var i := Choice(provider, model, cred, why);
      OneMore(w, looked, i, max);
      looked := looked + [i];
      var key := provider + "/" + model + "/" + cred;
      if key in seen || |routes| >= max {
        return;
      }
      var reason := w.unusable(provider, model, cred);
      if reason != "" {
        blocked := blocked + [Refusal(i, reason)];
        seen := seen + {key};
        return;
      }
      seen := seen + {key};
      routes := routes + [i];
    }

    method Refuse(provider: string, model: string, why: Why)
      requires Valid()
      modifies this`blocked, this`looked
      ensures Valid() && looked == old(looked) + [NoKey(provider, model, why)]
    {
      hide KeysOf, Routes, Blocked;
      OneMore(w, looked, NoKey(provider, model, why), max);
      looked := looked + [NoKey(provider, model, why)];
      blocked := blocked + [Refusal(NoKey(provider, model, why), "no usable key for " + provider)];
    }
  }

  // What a plan offers

  /** The choice at `n` can serve and is the first of its key. */
  ghost predicate Picked(w: World, items: seq<Item>, n: nat)
    requires n < |items|
  {
    CanServe(w, items[n]) && forall m | 0 <= m < n && items[m].Choice? :: KeyOf(items[m]) != KeyOf(items[n])
  }

  ghost function PickedBefore(w: World, items: seq<Item>, n: nat): nat
    requires n <= |items|
  {
    if n == 0 then 0 else PickedBefore(w, items, n - 1) + if Picked(w, items, n - 1) then 1 else 0
  }

  lemma {:induction false} KeysLookedAt(items: seq<Item>, key: string)
    ensures key in KeysOf(items) <==> exists m :: 0 <= m < |items| && items[m].Choice? && KeyOf(items[m]) == key
  {
    if items != [] {
      var earlier := items[..|items| - 1];
      KeysLookedAt(earlier, key);
      hide KeyOf;
      if m :| 0 <= m < |earlier| && earlier[m].Choice? && KeyOf(earlier[m]) == key {
        assert items[m] == earlier[m];
      }
    }
  }

  /** A choice is new exactly if no earlier one has its key. */
  lemma NewMeansFirst(items: seq<Item>, n: nat)
    requires n < |items|
    ensures IsNew(items[..n], items[n]) <==>
      items[n].Choice? && forall m | 0 <= m < n && items[m].Choice? :: KeyOf(items[m]) != KeyOf(items[n])
  {
    if items[n].Choice? {
      KeysLookedAt(items[..n], KeyOf(items[n]));
      hide KeyOf;
      if m :| 0 <= m < n && items[m].Choice? && KeyOf(items[m]) == KeyOf(items[n]) {
        assert items[..n][m] == items[m];
      }
    }
  }

  /** One more choice, in terms of its place. */
  lemma OneMorePicked(w: World, items: seq<Item>, max: nat, n: nat)
    requires n < |items|
    ensures Routes(w, items[..n + 1], max) == Routes(w, items[..n], max)
      + if Picked(w, items, n) && |Routes(w, items[..n], max)| < max then [items[n]] else []
  {
    assert items[..n + 1] == items[..n] + [items[n]];
    OneMore(w, items[..n], items[n], max);
    NewMeansFirst(items, n);
    hide KeysOf, KeyOf, Routes, Blocked, IsNew;
  }

  lemma {:induction false} HowManyOffered(w: World, items: seq<Item>, max: nat, n: nat)
    requires n <= |items|
    ensures |Routes(w, items[..n], max)| == if PickedBefore(w, items, n) < max then PickedBefore(w, items, n) else max
  {
    if n > 0 {
      HowManyOffered(w, items, max, n - 1);
      OneMorePicked(w, items, max, n - 1);
      hide Routes, Picked;
    }
  }

  /**
    A choice is offered exactly if it can serve, no earlier choice has its key, and fewer than `max`
    such choices come before it; and it is offered in that place.
   */
  lemma {:induction false} OfferedIff(w: World, items: seq<Item>, max: nat, n: nat, m: nat)
    requires m < n <= |items|
    ensures |Routes(w, items[..n], max)| == if PickedBefore(w, items, n) < max then PickedBefore(w, items, n) else max
    ensures Picked(w, items, m) && PickedBefore(w, items, m) < max ==>
      && PickedBefore(w, items, m) < |Routes(w, items[..n], max)|
      && Routes(w, items[..n], max)[PickedBefore(w, items, m)] == items[m]
    decreases n
  {
    HowManyOffered(w, items, max, n);
    HowManyOffered(w, items, max, n - 1);
    OneMorePicked(w, items, max, n - 1);
    hide Routes, Picked, PickedBefore;
    if m < n - 1 {
      OfferedIff(w, items, max, n - 1, m);
    }
  }

  lemma {:induction false} RoutesAreChoices(w: World, items: seq<Item>, max: nat, r: Item)
    requires r in Routes(w, items, max)
    ensures r in items && CanServe(w, r)
  {
    if items != [] {
      var earlier, last := items[..|items| - 1], items[|items| - 1];
      assert items == earlier + [last];
      OneMore(w, earlier, last, max);
      hide KeysOf, KeyOf, Routes, CanServe, IsNew;
      if r in Routes(w, earlier, max) {
        RoutesAreChoices(w, earlier, max, r);
      }
    }
  }

  /** No two routes of a plan share a key: a route that failed is not tried again under another place. */
  lemma {:induction false} RoutesHaveDifferentKeys(w: World, items: seq<Item>, max: nat, i: nat, j: nat)
    requires i < j < |Routes(w, items, max)|
    ensures
      var r := Routes(w, items, max);
      r[i].Choice? && r[j].Choice? && KeyOf(r[i]) != KeyOf(r[j])
  {
    var earlier, last := items[..|items| - 1], items[|items| - 1];
    assert items == earlier + [last];
    OneMore(w, earlier, last, max);
    hide KeysOf, KeyOf, Routes, CanServe;
    var before := Routes(w, earlier, max);
    if j < |before| {
      RoutesHaveDifferentKeys(w, earlier, max, i, j);
    } else {
      RouteKeyIsLookedAt(w, earlier, max, before[i]);
    }
  }

  lemma RouteKeyIsLookedAt(w: World, items: seq<Item>, max: nat, r: Item)
    requires r in Routes(w, items, max)
    ensures r.Choice? && KeyOf(r) in KeysOf(items)
  {
    RoutesAreChoices(w, items, max, r);
    var m :| 0 <= m < |items| && items[m] == r;
    KeysLookedAt(items, KeyOf(r));
    hide KeyOf, Routes;
  }

  /** The choice is listed as set aside, under its key. */
  ghost predicate Explained(w: World, items: seq<Item>, max: nat, i: Item) {
    if i.NoKey? then i in Blocked(w, items, max)
    else exists b :: b in Blocked(w, items, max) && b.Choice? && KeyOf(b) == KeyOf(i)
  }

  lemma StaysExplained(w: World, items: seq<Item>, last: Item, max: nat, i: Item)
    requires Explained(w, items, max, i)
    ensures Explained(w, items + [last], max, i)
  {
    OneMore(w, items, last, max);
    hide KeysOf, KeyOf, Routes, Blocked, CanServe, SetsAside;
    if i.Choice? {
      var b :| b in Blocked(w, items, max) && b.Choice? && KeyOf(b) == KeyOf(i);
      assert b in Blocked(w, items + [last], max);
    }
  }

  lemma EmptyMeansAside(w: World, items: seq<Item>, last: Item, max: nat)
    requires max > 0 && Routes(w, items + [last], max) == []
    ensures Routes(w, items, max) == []
    ensures last.NoKey? || IsNew(items, last) ==> Explained(w, items + [last], max, last)
  {
    OneMore(w, items, last, max);
    hide KeysOf, KeyOf, Routes, Blocked, CanServe, IsNew;
    if last.NoKey? || IsNew(items, last) {
      assert last in Blocked(w, items + [last], max);
    }
  }

  /** If nothing is offered, everything that was looked at is listed as set aside. */
  lemma {:induction false} EmptyPlanExplainsItself(w: World, items: seq<Item>, max: nat, i: Item)
    requires max > 0 && Routes(w, items, max) == [] && i in items
    ensures Explained(w, items, max, i)
  {
    var earlier, last := items[..|items| - 1], items[|items| - 1];
    assert items == earlier + [last];
    EmptyMeansAside(w, earlier, last, max);
    NewMeansFirst(items, |items| - 1);
    hide KeysOf, KeyOf, Routes, Blocked, CanServe, IsNew, Explained;
    if i in earlier {
      EmptyPlanExplainsItself(w, earlier, max, i);
      StaysExplained(w, earlier, last, max, i);
    } else if i.Choice? && !IsNew(earlier, i) {
      var m :| 0 <= m < |earlier| && items[m].Choice? && KeyOf(items[m]) == KeyOf(i);
      assert items[m] == earlier[m];
      EmptyPlanExplainsItself(w, earlier, max, items[m]);
      StaysExplained(w, earlier, last, max, items[m]);
      SameKeySameExplanation(w, items, max, items[m], i);
    }
  }

  lemma SameKeySameExplanation(w: World, items: seq<Item>, max: nat, i: Item, j: Item)
    requires i.Choice? && j.Choice? && KeyOf(i) == KeyOf(j) && Explained(w, items, max, i)
    ensures Explained(w, items, max, j)
  {
    hide KeyOf, Blocked;
  }

  // Keys

  /** No two different choices share a key. */
  ghost predicate Separable(items: seq<Item>) {
    forall a, b | a in items && b in items && a.Choice? && b.Choice? && KeyOf(a) == KeyOf(b) ::
      a.provider == b.provider && a.model == b.model && a.cred == b.cred
  }

  lemma SplitAtSlash(a: string, b: string, c: string, d: string)
    requires '/' !in a && '/' !in c && a + "/" + b == c + "/" + d
    ensures a == c && b == d
  {
    var s := a + "/" + b;
    assert s[..|a|] == a && s[|a|] == '/' && s[|a| + 1..] == b;
    assert s[..|c|] == c && s[|c|] == '/' && s[|c| + 1..] == d;
    IndexIs(s, '/', |a|);
    IndexIs(s, '/', |c|);
  }

  lemma {:induction false} SplitAtLastSlash(a: string, b: string, c: string, d: string)
    requires '/' !in b && '/' !in d && a + "/" + b == c + "/" + d
    ensures a == c && b == d
    decreases |b|
  {
    var s, t := a + "/" + b, c + "/" + d;
    assert b == "" ==> s[|s| - 1] == '/' && s[..|s| - 1] == a;
    assert d == "" ==> t[|t| - 1] == '/' && t[..|t| - 1] == c;
    assert b != "" ==> s[|s| - 1] == b[|b| - 1] && s[..|s| - 1] == a + "/" + b[..|b| - 1];
    assert d != "" ==> t[|t| - 1] == d[|d| - 1] && t[..|t| - 1] == c + "/" + d[..|d| - 1];
    if b != "" && d != "" {
      SplitAtLastSlash(a, b[..|b| - 1], c, d[..|d| - 1]);
      assert b == b[..|b| - 1] + [b[|b| - 1]] && d == d[..|d| - 1] + [d[|d| - 1]];
    }
  }

  /** Only the model's name may have a slash in it. */
  predicate PlainKey(i: Item) {
    i.Choice? ==> '/' !in i.provider && '/' !in i.cred
  }

  lemma PlainKeysSeparate(a: Item, b: Item)
    requires PlainKey(a) && PlainKey(b) && a.Choice? && b.Choice? && KeyOf(a) == KeyOf(b)
    ensures a.provider == b.provider && a.model == b.model && a.cred == b.cred
  {
    SplitAtLastSlash(a.provider + "/" + a.model, a.cred, b.provider + "/" + b.model, b.cred);
    SplitAtSlash(a.provider, a.model, b.provider, b.model);
  }

  /**
    A slash in a provider's name would make two different choices one. The registered providers
    (internal/llm/llm.go:227-229) and key numbers (internal/store/store.go:117-121) have none.
   */
  lemma SlashesCollide(a: string, b: string, c: string, cred: string, why: Why)
    ensures KeyOf(Choice(a + "/" + b, c, cred, why)) == KeyOf(Choice(a, b + "/" + c, cred, why))
  {
    assert a + "/" + b + "/" + c == a + "/" + (b + "/" + c);
  }

  lemma {:induction false} SomeRouteIff(w: World, items: seq<Item>, max: nat)
    requires max > 0 && Separable(items)
    ensures Routes(w, items, max) == [] <==> forall i | i in items :: !CanServe(w, i)
  {
    if Routes(w, items, max) == [] {
      forall i | i in items ensures !CanServe(w, i) {
        if i.Choice? {
          EmptyPlanExplainsItself(w, items, max, i);
          var b :| b in Blocked(w, items, max) && b.Choice? && KeyOf(b) == KeyOf(i);
          BlockedCannotServe(w, items, max, b);
        }
      }
    } else {
      RoutesAreChoices(w, items, max, Routes(w, items, max)[0]);
    }
  }

  lemma {:induction false} BlockedCannotServe(w: World, items: seq<Item>, max: nat, b: Item)
    requires b in Blocked(w, items, max)
    ensures b in items && !CanServe(w, b)
  {
    var earlier, last := items[..|items| - 1], items[|items| - 1];
    assert items == earlier + [last];
    OneMore(w, earlier, last, max);
    hide KeysOf, KeyOf, Routes, Blocked, IsNew;
    if b in Blocked(w, earlier, max) {
      BlockedCannotServe(w, earlier, max, b);
    }
  }

  // Requests

  /** What to route. The level is none for "auto"; empty names mean no preference. */
  datatype Request = Request(
    provider: string, model: string, key: string, level: Option<Level>, maxRoutes: int,
    candidates: seq<Candidate>, strategy: Strategy)

  const DEFAULT_MAX_ROUTES := 6
  const KNOWN_PROVIDERS := ["claude", "openai", "gemini", "openai_compatible"]

  function MaxRoutes(req: Request): (n: nat)
    ensures n > 0
  {
    if req.maxRoutes <= 0 then DEFAULT_MAX_ROUTES else req.maxRoutes
  }

  function LevelFor(req: Request): Level {
    if req.level.Some? then req.level.value else Standard
  }

  /** The keys that may pay: the pinned one alone, or all of them. */
  function KeysFor(w: World, provider: string, pinned: string): (keys: seq<string>)
    ensures pinned != "" ==> forall k | k in keys :: k == pinned
    ensures forall k | k in keys :: provider in w.keys && k in w.keys[provider]
  {
    var keys := if provider in w.keys then w.keys[provider] else [];
    if pinned == "" then keys else if pinned in keys then [pinned] else []
  }

  /** One model on each of these keys. */
  function Each(provider: string, model: string, why: Why, keys: seq<string>): seq<Item> {
    if keys == [] then []
    else
      Each(provider, model, why, keys[..|keys| - 1]) + [Choice(provider, model, keys[|keys| - 1], why)]
  }

  function WhyOf(req: Request, c: Candidate, first: bool): Why {
    if c.provider == req.provider && c.model == req.model then Pinned
    else if first then Default
    else Fallback
  }

  /** Everything looked at for the first `n` approved models. */
  function CandidateItems(w: World, req: Request, ordered: seq<Candidate>, n: nat): seq<Item>
    requires n <= |ordered|
  {
    if n == 0 then []
    else
      var (c, why) := (ordered[n - 1], WhyOf(req, ordered[n - 1], n == 1));
      var keys := KeysFor(w, c.provider, req.key);
      CandidateItems(w, req, ordered, n - 1)
      + if keys == [] then [NoKey(c.provider, c.model, why)] else Each(c.provider, c.model, why, keys)
  }

  function ModelItems(provider: string, why: Why, models: seq<Model>, keys: seq<string>): seq<Item> {
    if models == [] then []
    else
      ModelItems(provider, why, models[..|models| - 1], keys) + Each(provider, models[|models| - 1].id, why, keys)
  }

  /** Everything looked at for one provider: its tier, then its configured default. */
  function ProviderItems(w: World, req: Request, level: Level, provider: string): seq<Item> {
    var keys := KeysFor(w, provider, req.key);
    if keys == [] then []
    else
      var why := if provider == req.provider && req.model == "" then Default else ByTier;
      ModelItems(provider, why, Tier(w.catalog(provider), level, w.preferred(provider), w.cheap(provider)), keys)
      + if w.fallback(provider) != "" then Each(provider, w.fallback(provider), why, keys) else []
  }

  /** The pinned model, if there is one. */
  function PinnedItems(w: World, req: Request): seq<Item> {
    if req.provider != "" && req.model != "" then
      Each(req.provider, req.model, Pinned, KeysFor(w, req.provider, req.key))
    else []
  }

  function TierItems(w: World, req: Request, level: Level, order: seq<string>): seq<Item> {
    if order == [] then PinnedItems(w, req)
    else
      TierItems(w, req, level, order[..|order| - 1]) + ProviderItems(w, req, level, order[|order| - 1])
  }

  /** The providers with keys among `names`, each once, in order. */
  function Firsts(w: World, names: seq<string>): seq<string> {
    if names == [] then []
    else
      var (earlier, last) := (names[..|names| - 1], names[|names| - 1]);
      Firsts(w, earlier) + if last in w.keys && w.keys[last] != [] && last !in Firsts(w, earlier) then [last] else []
  }

  function NonEmpty(name: string): seq<string> {
    if name == "" then [] else [name]
  }

  /** The pinned provider, then the configured one, then the known ones, then the rest. */
  function ProviderOrder(w: World, pinned: string): seq<string> {
    Firsts(w, NonEmpty(pinned) + NonEmpty(w.configured) + KNOWN_PROVIDERS + w.others)
  }

  function ItemsFor(w: World, req: Request, level: Level): seq<Item> {
    if req.candidates != [] then
      var ordered := Ordered(req.candidates, req.strategy, w.meta);
      CandidateItems(w, req, ordered, |ordered|)
    else
      TierItems(w, req, level, ProviderOrder(w, req.provider))
  }

  lemma {:induction false} FirstsAre(w: World, names: seq<string>, name: string)
    ensures name in Firsts(w, names) <==> name in names && name in w.keys && w.keys[name] != []
    ensures |Firsts(w, names)| == |set n | n in Firsts(w, names)|
  {
    if names != [] {
      var earlier, last := names[..|names| - 1], names[|names| - 1];
      FirstsAre(w, earlier, name);
      FirstsAre(w, earlier, last);
      assert names == earlier + [last];
      var f := Firsts(w, earlier);
      if Firsts(w, names) != f {
        assert (set n | n in Firsts(w, names)) == (set n | n in f) + {last};
      }
    }
  }

  // What every choice looked at has in common

  /** The choice is for a key that may pay, the pinned one if a key is pinned. */
  predicate MayPay(w: World, req: Request, i: Item) {
    i.Choice? ==> (req.key != "" ==> i.cred == req.key) && i.provider in w.keys && i.cred in w.keys[i.provider]
  }

  lemma {:induction false} EachIs(provider: string, model: string, why: Why, keys: seq<string>, i: Item)
    ensures i in Each(provider, model, why, keys) <==>
      i.Choice? && i.provider == provider && i.model == model && i.why == why && i.cred in keys
  {
    if keys != [] {
      EachIs(provider, model, why, keys[..|keys| - 1], i);
      assert keys == keys[..|keys| - 1] + [keys[|keys| - 1]];
    }
  }

  /** With approved models, nothing else is looked at, and each is tried on every key that may pay. */
  lemma {:induction false} CandidateItemsAre(w: World, req: Request, ordered: seq<Candidate>, n: nat, i: Item)
    requires n <= |ordered| && i in CandidateItems(w, req, ordered, n)
    ensures MayPay(w, req, i)
    ensures Candidate(i.provider, i.model) in ordered
  {
    var c, why := ordered[n - 1], WhyOf(req, ordered[n - 1], n == 1);
    EachIs(c.provider, c.model, why, KeysFor(w, c.provider, req.key), i);
    hide WhyOf, Each;
    if i in CandidateItems(w, req, ordered, n - 1) {
      CandidateItemsAre(w, req, ordered, n - 1, i);
    }
  }

  /** The choice of one approved model on one key, or the model without a key. */
  function TriedAs(w: World, req: Request, c: Candidate, first: bool, cred: string): Item {
    if KeysFor(w, c.provider, req.key) == [] then NoKey(c.provider, c.model, WhyOf(req, c, first))
    else Choice(c.provider, c.model, cred, WhyOf(req, c, first))
  }

  lemma LastCandidateIsTried(w: World, req: Request, ordered: seq<Candidate>, n: nat, cred: string)
    requires n < |ordered|
    requires var keys := KeysFor(w, ordered[n].provider, req.key); cred in keys || keys == []
    ensures TriedAs(w, req, ordered[n], n == 0, cred) in CandidateItems(w, req, ordered, n + 1)
  {
    var c := ordered[n];
    var keys := KeysFor(w, c.provider, req.key);
    var i := TriedAs(w, req, c, n == 0, cred);
    EachIs(c.provider, c.model, WhyOf(req, c, n == 0), keys, i);
    hide WhyOf, Each, KeysFor;
    assert i in if keys == [] then [i] else Each(c.provider, c.model, WhyOf(req, c, n == 0), keys);
  }

  lemma {:induction false} EveryCandidateIsTried(w: World, req: Request, ordered: seq<Candidate>, n: nat, k: nat,
                                                 cred: string)
    requires k < n <= |ordered|
    requires var keys := KeysFor(w, ordered[k].provider, req.key); cred in keys || keys == []
    ensures TriedAs(w, req, ordered[k], k == 0, cred) in CandidateItems(w, req, ordered, n)
  {
    hide WhyOf, Each, KeysFor, TriedAs;
    if k == n - 1 {
      LastCandidateIsTried(w, req, ordered, k, cred);
    } else {
      EveryCandidateIsTried(w, req, ordered, n - 1, k, cred);
    }
  }

  lemma {:induction false} ModelItemsAre(provider: string, why: Why, models: seq<Model>, keys: seq<string>, i: Item)
    ensures i in ModelItems(provider, why, models, keys) <==>
      exists m :: m in models && i in Each(provider, m.id, why, keys)
  {
    hide Each;
    if models != [] {
      var earlier, last := models[..|models| - 1], models[|models| - 1];
      assert models == earlier + [last];
      ModelItemsAre(provider, why, earlier, keys, i);
    }
  }

  /** The level changes the order in which a provider's models are looked at, not which ones. */
  lemma ProviderItemsSameForEveryLevel(w: World, req: Request, level: Level, other: Level, provider: string, i: Item)
    requires i in ProviderItems(w, req, level, provider)
    ensures i in ProviderItems(w, req, other, provider)
  {
    var keys := KeysFor(w, provider, req.key);
    var why := if provider == req.provider && req.model == "" then Default else ByTier;
    var list := w.catalog(provider);
    var here, there := Tier(list, level, w.preferred(provider), w.cheap(provider)),
                       Tier(list, other, w.preferred(provider), w.cheap(provider));
    ModelItemsAre(provider, why, here, keys, i);
    ModelItemsAre(provider, why, there, keys, i);
    hide Each, ModelItems, Tier, KeysFor;
    if m :| m in here && i in Each(provider, m.id, why, keys) {
      TiersHaveTheSameModels(list, level, other, w.preferred(provider), w.cheap(provider), m);
    }
  }

  lemma {:induction false} TierItemsSameForEveryLevel(w: World, req: Request, level: Level, other: Level,
                                                     order: seq<string>, i: Item)
    requires i in TierItems(w, req, level, order)
    ensures i in TierItems(w, req, other, order)
  {
    hide ProviderItems, PinnedItems;
    if order != [] {
      var earlier, last := order[..|order| - 1], order[|order| - 1];
      if i in TierItems(w, req, level, earlier) {
        TierItemsSameForEveryLevel(w, req, level, other, earlier, i);
      } else {
        ProviderItemsSameForEveryLevel(w, req, level, other, last, i);
      }
    }
  }

  lemma EachMayPay(w: World, req: Request, provider: string, model: string, why: Why, i: Item)
    requires i in Each(provider, model, why, KeysFor(w, provider, req.key))
    ensures MayPay(w, req, i)
  {
    EachIs(provider, model, why, KeysFor(w, provider, req.key), i);
  }

  lemma {:induction false} TierItemsMayPay(w: World, req: Request, level: Level, order: seq<string>, i: Item)
    requires i in TierItems(w, req, level, order)
    ensures MayPay(w, req, i)
  {
    hide Each, ModelItems, MayPay, KeysFor, Tier;
    if order == [] {
      EachMayPay(w, req, req.provider, req.model, Pinned, i);
    } else {
      var earlier, p := order[..|order| - 1], order[|order| - 1];
      if i in TierItems(w, req, level, earlier) {
        TierItemsMayPay(w, req, level, earlier, i);
      } else {
        var keys := KeysFor(w, p, req.key);
        var why := if p == req.provider && req.model == "" then Default else ByTier;
        var models := Tier(w.catalog(p), level, w.preferred(p), w.cheap(p));
        ModelItemsAre(p, why, models, keys, i);
        if i in ModelItems(p, why, models, keys) {
          var m :| m in models && i in Each(p, m.id, why, keys);
          EachMayPay(w, req, p, m.id, why, i);
        } else {
          EachMayPay(w, req, p, w.fallback(p), why, i);
        }
      }
    }
  }

  /** A pinned key is the only key in any route, and every key may pay for its provider. */
  lemma PinnedKeyIsTheOnlyKey(w: World, req: Request, level: Level, r: Item)
    requires r in Routes(w, ItemsFor(w, req, level), MaxRoutes(req))
    ensures r.Choice? && MayPay(w, req, r)
  {
    var items := ItemsFor(w, req, level);
    RoutesAreChoices(w, items, MaxRoutes(req), r);
    hide Routes, TierItems, CandidateItems, ProviderOrder, Ordered;
    if req.candidates != [] {
      var ordered := Ordered(req.candidates, req.strategy, w.meta);
      CandidateItemsAre(w, req, ordered, |ordered|, r);
    } else {
      TierItemsMayPay(w, req, level, ProviderOrder(w, req.provider), r);
    }
  }

  /** With approved models, no route uses any other. */
  lemma OnlyApprovedModels(w: World, req: Request, level: Level, r: Item)
    requires req.candidates != [] && r in Routes(w, ItemsFor(w, req, level), MaxRoutes(req))
    ensures Candidate(r.provider, r.model) in req.candidates
  {
    var ordered := Ordered(req.candidates, req.strategy, w.meta);
    RoutesAreChoices(w, ItemsFor(w, req, level), MaxRoutes(req), r);
    CandidateItemsAre(w, req, ordered, |ordered|, r);
    OrderedIsTheStableSort(req.candidates, req.strategy, w.meta, ordered);
    hide Routes, CandidateItems, Ordered;
    assert Candidate(r.provider, r.model) in multiset(ordered);
  }

  /**
    With approved models and no route, each of them is accounted for: under every key that may pay
    for it, or as a model without a key.
   */
  lemma NoRouteMeansAllBlocked(w: World, req: Request, level: Level, c: Candidate, cred: string)
    requires req.candidates != [] && RoutesAt(w, req, level) == [] && c in req.candidates
    requires cred in KeysFor(w, c.provider, req.key) || KeysFor(w, c.provider, req.key) == []
    ensures KeysFor(w, c.provider, req.key) == [] ==>
      exists why :: NoKey(c.provider, c.model, why) in BlockedAt(w, req, level)
    ensures cred in KeysFor(w, c.provider, req.key) ==>
      exists b :: b in BlockedAt(w, req, level) && b.Choice? && KeyOf(b) == c.provider + "/" + c.model + "/" + cred
  {
    var ordered := Ordered(req.candidates, req.strategy, w.meta);
    OrderedIsTheStableSort(req.candidates, req.strategy, w.meta, ordered);
    hide Ordered, Routes, Blocked, KeysFor, CandidateItems, WhyOf;
    assert c in multiset(ordered);
    var k :| 0 <= k < |ordered| && ordered[k] == c;
    EveryCandidateIsTried(w, req, ordered, |ordered|, k, cred);
    EmptyPlanExplainsItself(w, ItemsFor(w, req, level), MaxRoutes(req), TriedAs(w, req, c, k == 0, cred));
  }

  /**
    Without approved models, whether there is any route does not depend on the level; so looking
    again one level lower, after finding nothing, finds nothing.
   */
  lemma AnyRouteWhateverTheLevel(w: World, req: Request, level: Level, other: Level)
    requires req.candidates == [] && HasPlainKeys(w)
    ensures Routes(w, ItemsFor(w, req, level), MaxRoutes(req)) == []
       <==> Routes(w, ItemsFor(w, req, other), MaxRoutes(req)) == []
  {
    var order := ProviderOrder(w, req.provider);
    var here, there := ItemsFor(w, req, level), ItemsFor(w, req, other);
    assert here == TierItems(w, req, level, order) && there == TierItems(w, req, other, order);
    hide Routes, TierItems, ProviderOrder, KeyOf, ItemsFor;
    forall i ensures i in here <==> i in there {
      if i in here {
        TierItemsSameForEveryLevel(w, req, level, other, order, i);
      }
      if i in there {
        TierItemsSameForEveryLevel(w, req, other, level, order, i);
      }
    }
    TierItemsArePlain(w, req, level, order);
    TierItemsArePlain(w, req, other, order);
    PlainIsSeparable(here);
    PlainIsSeparable(there);
    SomeRouteIff(w, here, MaxRoutes(req));
    SomeRouteIff(w, there, MaxRoutes(req));
  }

  /** No provider with keys and no key number has a slash. */
  ghost predicate HasPlainKeys(w: World) {
    forall p | p in w.keys :: '/' !in p && forall k | k in w.keys[p] :: '/' !in k
  }

  lemma TierItemsArePlain(w: World, req: Request, level: Level, order: seq<string>)
    requires HasPlainKeys(w)
    ensures forall i | i in TierItems(w, req, level, order) :: PlainKey(i)
  {
    hide TierItems;
    forall i | i in TierItems(w, req, level, order) ensures PlainKey(i) {
      TierItemsMayPay(w, req, level, order, i);
    }
  }

  lemma PlainIsSeparable(items: seq<Item>)
    requires forall i | i in items :: PlainKey(i)
    ensures Separable(items)
  {
    forall a, b | a in items && b in items && a.Choice? && b.Choice? && KeyOf(a) == KeyOf(b)
      ensures a.provider == b.provider && a.model == b.model && a.cred == b.cred
    {
      PlainKeysSeparate(a, b);
    }
  }

  // What is looked at

  /** The key may pay for the provider. */
  predicate Pays(w: World, req: Request, provider: string, cred: string) {
    provider in w.keys && cred in w.keys[provider] && (req.key == "" || cred == req.key)
  }

  lemma KeysThatPay(w: World, req: Request, provider: string, cred: string)
    ensures cred in KeysFor(w, provider, req.key) <==> Pays(w, req, provider, cred)
    ensures req.key == "" && provider in w.keys ==> KeysFor(w, provider, req.key) == w.keys[provider]
    ensures req.key != "" && Pays(w, req, provider, req.key) ==> KeysFor(w, provider, req.key) == [req.key]
  {}

  /** The model with this name is pinned. */
  predicate IsPinned(req: Request, provider: string, model: string) {
    req.provider != "" && req.model != "" && provider == req.provider && model == req.model
  }

  /** The provider's catalog or its configuration has the model. */
  ghost predicate Knows(w: World, provider: string, model: string) {
    || (w.fallback(provider) != "" && model == w.fallback(provider))
    || exists m :: m in w.catalog(provider) && m.id == model
  }

  /** The known providers and those in the order of the map are all that have keys. */
  ghost predicate ListsAll(w: World) {
    forall p | p in w.keys :: p in w.others || p in KNOWN_PROVIDERS
  }

  lemma ProviderItemsIff(w: World, req: Request, level: Level, provider: string, i: Item)
    ensures i in ProviderItems(w, req, level, provider) <==>
      && i.Choice? && i.provider == provider && Pays(w, req, provider, i.cred) && Knows(w, provider, i.model)
      && i.why == if provider == req.provider && req.model == "" then Default else ByTier
  {
    var keys := KeysFor(w, provider, req.key);
    var why := if provider == req.provider && req.model == "" then Default else ByTier;
    var list := w.catalog(provider);
    var models := Tier(list, level, w.preferred(provider), w.cheap(provider));
    ModelItemsAre(provider, why, models, keys, i);
    if i.Choice? {
      KeysThatPay(w, req, provider, i.cred);
    }
    forall m ensures m in models <==> m in list {
      TiersHaveTheSameModels(list, level, level, w.preferred(provider), w.cheap(provider), m);
    }
    forall model ensures i in Each(provider, model, why, keys) <==>
      i.Choice? && i.provider == provider && i.model == model && i.why == why && i.cred in keys
    {
      EachIs(provider, model, why, keys, i);
    }
    hide Each, ModelItems, Tier, KeysFor, Pays;
  }

  lemma {:induction false} TierItemsIff(w: World, req: Request, level: Level, order: seq<string>, i: Item)
    ensures i in TierItems(w, req, level, order) <==>
      i in PinnedItems(w, req) || exists p :: p in order && i in ProviderItems(w, req, level, p)
  {
    hide PinnedItems, ProviderItems;
    if order != [] {
      var earlier, last := order[..|order| - 1], order[|order| - 1];
      TierItemsIff(w, req, level, earlier, i);
      assert order == earlier + [last];
    }
  }

  /**
    Without approved models, these are looked at: the pinned model, and every model that the catalog
    or the configuration of a provider with keys has; each on every key that may pay.
   */
  lemma LookedAtIff(w: World, req: Request, level: Level, i: Item)
    requires req.candidates == [] && ListsAll(w)
    ensures i in ItemsFor(w, req, level) <==>
      && i.Choice? && Pays(w, req, i.provider, i.cred)
      && (|| (i.why == Pinned && IsPinned(req, i.provider, i.model))
          || (Knows(w, i.provider, i.model)
              && i.why == if i.provider == req.provider && req.model == "" then Default else ByTier))
  {
    var order := ProviderOrder(w, req.provider);
    TierItemsIff(w, req, level, order, i);
    forall p ensures i in ProviderItems(w, req, level, p) <==>
      && i.Choice? && i.provider == p && Pays(w, req, p, i.cred) && Knows(w, p, i.model)
      && i.why == if p == req.provider && req.model == "" then Default else ByTier
    {
      ProviderItemsIff(w, req, level, p, i);
    }
    EachIs(req.provider, req.model, Pinned, KeysFor(w, req.provider, req.key), i);
    if i.Choice? {
      KeysThatPay(w, req, req.provider, i.cred);
      FirstsAre(w, NonEmpty(req.provider) + NonEmpty(w.configured) + KNOWN_PROVIDERS + w.others, i.provider);
    }
    hide ProviderItems, TierItems, Each, KeysFor, Knows, Firsts;
  }

  /** Approved models are labelled: the pinned one as such, else the first as the default. */
  predicate IsLabelled(req: Request, ordered: seq<Candidate>, k: nat, why: Why)
    requires k < |ordered|
  {
    var pinned := ordered[k].provider == req.provider && ordered[k].model == req.model;
    (why == Pinned <==> pinned) && (why == Default <==> !pinned && k == 0) && (why == Fallback <==> !pinned && k > 0)
  }

  /** What is looked at for the approved model with number `k`. */
  predicate IsLookedAt(w: World, req: Request, ordered: seq<Candidate>, k: nat, i: Item)
    requires k < |ordered|
  {
    && i.provider == ordered[k].provider && i.model == ordered[k].model && IsLabelled(req, ordered, k, i.why)
    && if i.Choice? then Pays(w, req, i.provider, i.cred) else NoKeyPays(w, req, i.provider)
  }

  predicate NoKeyPays(w: World, req: Request, provider: string) {
    provider in w.keys ==> if req.key == "" then w.keys[provider] == [] else req.key !in w.keys[provider]
  }

  ghost predicate IsOneOf(w: World, req: Request, ordered: seq<Candidate>, n: nat, i: Item)
    requires n <= |ordered|
  {
    exists k :: 0 <= k < n && IsLookedAt(w, req, ordered, k, i)
  }

  lemma OneOfMore(w: World, req: Request, ordered: seq<Candidate>, n: nat, i: Item)
    requires n < |ordered|
    ensures IsOneOf(w, req, ordered, n + 1, i) <==> IsOneOf(w, req, ordered, n, i) || IsLookedAt(w, req, ordered, n, i)
  {
    hide IsLookedAt;
  }

  lemma NoneLookedAt(w: World, req: Request, ordered: seq<Candidate>, i: Item)
    ensures i !in CandidateItems(w, req, ordered, 0) && !IsOneOf(w, req, ordered, 0, i)
  {}

  /** With approved models, exactly these are looked at, on every key that may pay, or as models without a key. */
  lemma {:induction false} ApprovedLookedAtIff(w: World, req: Request, ordered: seq<Candidate>, n: nat, i: Item)
    requires n <= |ordered|
    ensures i in CandidateItems(w, req, ordered, n) <==> IsOneOf(w, req, ordered, n, i)
  {
    hide *;
    if n == 0 {
      NoneLookedAt(w, req, ordered, i);
    } else {
      LastLookedAtIff(w, req, ordered, n - 1, i);
      OneOfMore(w, req, ordered, n - 1, i);
      ApprovedLookedAtIff(w, req, ordered, n - 1, i);
    }
  }

  lemma LastLookedAtIff(w: World, req: Request, ordered: seq<Candidate>, k: nat, i: Item)
    requires k < |ordered|
    ensures i in CandidateItems(w, req, ordered, k + 1) <==>
      i in CandidateItems(w, req, ordered, k) || IsLookedAt(w, req, ordered, k, i)
  {
    var c, why := ordered[k], WhyOf(req, ordered[k], k == 0);
    var keys := KeysFor(w, c.provider, req.key);
    EachIs(c.provider, c.model, why, keys, i);
    if i.Choice? {
      KeysThatPay(w, req, c.provider, i.cred);
    }
    assert keys == [] <==> NoKeyPays(w, req, c.provider);
    hide Each, KeysFor;
  }

  // A pinned model is tried first

  /** How many of the provider's first `n` keys can serve the model. */
  function Serving(w: World, provider: string, model: string, keys: seq<string>, n: nat): nat
    requires n <= |keys|
  {
    if n == 0 then 0
    else
      Serving(w, provider, model, keys, n - 1) + if w.unusable(provider, model, keys[n - 1]) == "" then 1 else 0
  }

  lemma {:induction false} EachAt(provider: string, model: string, why: Why, keys: seq<string>, k: nat)
    requires k < |keys|
    ensures |Each(provider, model, why, keys)| == |keys|
    ensures Each(provider, model, why, keys)[k] == Choice(provider, model, keys[k], why)
  {
    EachLength(provider, model, why, keys);
    if k < |keys| - 1 {
      EachAt(provider, model, why, keys[..|keys| - 1], k);
    } else {
      EachLength(provider, model, why, keys[..|keys| - 1]);
    }
  }

  lemma {:induction false} EachLength(provider: string, model: string, why: Why, keys: seq<string>)
    ensures |Each(provider, model, why, keys)| == |keys|
  {
    if keys != [] {
      EachLength(provider, model, why, keys[..|keys| - 1]);
    }
  }

  lemma SameKeySameCred(provider: string, model: string, a: string, b: string, why: Why)
    ensures KeyOf(Choice(provider, model, a, why)) == KeyOf(Choice(provider, model, b, why)) <==> a == b
  {
    var start := provider + "/" + model + "/";
    assert (start + a)[|start|..] == a && (start + b)[|start|..] == b;
  }

  ghost predicate Differ(keys: seq<string>) {
    forall j, k | 0 <= j < k < |keys| :: keys[j] != keys[k]
  }

  /** The choices on different keys, at the beginning of what is looked at. */
  lemma {:induction false} PickedAtFirst(w: World, items: seq<Item>, provider: string, model: string, why: Why,
                                         keys: seq<string>, n: nat)
    requires Each(provider, model, why, keys) <= items && Differ(keys) && n <= |keys| <= |items|
    ensures PickedBefore(w, items, n) == Serving(w, provider, model, keys, n)
    ensures n < |keys| ==> (Picked(w, items, n) <==> w.unusable(provider, model, keys[n]) == "")
    ensures n < |keys| ==> items[n] == Choice(provider, model, keys[n], why)
  {
    if n > 0 {
      PickedAtFirst(w, items, provider, model, why, keys, n - 1);
    }
    if n < |keys| {
      forall m | 0 <= m <= n ensures items[m] == Choice(provider, model, keys[m], why) {
        EachAt(provider, model, why, keys, m);
      }
      forall m | 0 <= m < n ensures KeyOf(items[m]) != KeyOf(items[n]) {
        SameKeySameCred(provider, model, keys[m], keys[n], why);
      }
    }
    hide KeyOf, Each;
  }

  lemma {:induction false} PinnedItemsFirst(w: World, req: Request, level: Level, order: seq<string>)
    ensures PinnedItems(w, req) <= TierItems(w, req, level, order)
  {
    if order != [] {
      PinnedItemsFirst(w, req, level, order[..|order| - 1]);
    }
    hide PinnedItems, ProviderItems;
  }

  /** The keys of the pinned provider that may pay, in their order. */
  predicate ArePaying(w: World, req: Request, keys: seq<string>) {
    req.provider in w.keys && if req.key == "" then keys == w.keys[req.provider]
    else req.key in w.keys[req.provider] && keys == [req.key]
  }

  /**
    With a pinned model and no approved ones, the first routes are that model on those of its
    provider's keys that may pay and can serve it, in their order, up to the cap.
   */
  lemma PinnedModelComesFirst(w: World, req: Request, keys: seq<string>, k: nat)
    requires req.candidates == [] && req.provider != "" && req.model != "" && ArePaying(w, req, keys)
    requires Differ(keys) && k < |keys| && w.unusable(req.provider, req.model, keys[k]) == ""
    ensures
      var n := Serving(w, req.provider, req.model, keys, k);
      n < MaxRoutes(req) ==>
        n < |Offered(w, req)| && Offered(w, req)[n] == Choice(req.provider, req.model, keys[k], Pinned)
  {
    var level := LevelFor(req);
    var items := ItemsFor(w, req, level);
    KeysThatPay(w, req, req.provider, req.key);
    PinnedItemsFirst(w, req, level, ProviderOrder(w, req.provider));
    EachLength(req.provider, req.model, Pinned, keys);
    PickedAtFirst(w, items, req.provider, req.model, Pinned, keys, k);
    OfferedIff(w, items, MaxRoutes(req), |items|, k);
    assert items[..|items|] == items;
    hide TierItems, ProviderOrder, Each, KeysFor, Routes, Picked, PickedBefore, Serving;
  }

  /** The pinned provider is looked at before any other, and the configured one next. */
  lemma PinnedProviderComesFirst(w: World, pinned: string)
    ensures pinned != "" && pinned in w.keys && w.keys[pinned] != [] ==>
      ProviderOrder(w, pinned) != [] && ProviderOrder(w, pinned)[0] == pinned
    ensures w.configured != "" && w.configured in w.keys && w.keys[w.configured] != [] ==>
      var order := ProviderOrder(w, pinned);
      (|order| > 0 && order[0] == w.configured) || (|order| > 1 && order[0] == pinned && order[1] == w.configured)
  {
    hide Firsts;
    var ahead := NonEmpty(pinned) + NonEmpty(w.configured);
    FirstsGoOn(w, ahead, KNOWN_PROVIDERS);
    FirstsGoOn(w, ahead + KNOWN_PROVIDERS, w.others);
    NoFirsts(w);
    OneMoreFirst(w, [], pinned);
    OneMoreFirst(w, [], w.configured);
    OneMoreFirst(w, [pinned], w.configured);
    assert [] + [pinned] == [pinned] && [] + [w.configured] == [w.configured];
    assert ahead == if pinned == "" then NonEmpty(w.configured)
      else if w.configured == "" then [pinned] else [pinned] + [w.configured];
  }

  lemma OneMoreFirst(w: World, names: seq<string>, name: string)
    ensures Firsts(w, names + [name]) == Firsts(w, names)
      + if name in w.keys && w.keys[name] != [] && name !in Firsts(w, names) then [name] else []
  {
    assert (names + [name])[..|names|] == names;
  }

  lemma {:induction false} FirstsGoOn(w: World, names: seq<string>, more: seq<string>)
    ensures Firsts(w, names) <= Firsts(w, names + more)
  {
    if more == [] {
      assert names + more == names;
    } else {
      FirstsGoOn(w, names, more[..|more| - 1]);
      assert (names + more)[..|names + more| - 1] == names + more[..|more| - 1];
    }
  }

  // Router.Plan

  /** One model on each key. */
  method AddEach(plan: Plan, provider: string, model: string, why: Why, keys: seq<string>)
    requires plan.Valid()
    modifies plan`routes, plan`blocked, plan`seen, plan`looked
    ensures plan.Valid() && plan.looked == old(plan.looked) + Each(provider, model, why, keys)
  {
    hide KeysOf, Routes, Blocked;
    for i := 0 to |keys|
      invariant plan.Valid() && plan.looked == old(plan.looked) + Each(provider, model, why, keys[..i])
    {
      assert keys[..i + 1][..i] == keys[..i];
      plan.Add(provider, model, why, keys[i]);
    }
    assert keys[..|keys|] == keys;
  }

  method AddCandidates(plan: Plan, req: Request)
    requires plan.Valid() && plan.looked == [] && req.candidates != []
    modifies plan`routes, plan`blocked, plan`seen, plan`looked
    ensures plan.Valid() && plan.looked == ItemsFor(plan.w, req, LevelFor(req))
  {
    hide KeysOf, Routes, Blocked, KeysFor, Each, Ordered;
    var ordered := Ordered(req.candidates, req.strategy, plan.w.meta);
    for n := 0 to |ordered|
      invariant plan.Valid() && plan.looked == CandidateItems(plan.w, req, ordered, n)
    {
      var c := ordered[n];
      var why := if c.provider == req.provider && c.model == req.model then Pinned
        else if n == 0 then Default else Fallback;
      var keys := KeysFor(plan.w, c.provider, req.key);
      if |keys| == 0 {
        plan.Refuse(c.provider, c.model, why);
      } else {
        AddEach(plan, c.provider, c.model, why, keys);
      }
    }
  }

  /** Adds the names that have keys and are not there yet. */
  method AddNames(w: World, names: seq<string>, before: seq<string>, ghost done: seq<string>) returns (out: seq<string>)
    requires before == Firsts(w, done)
    ensures out == Firsts(w, done + names)
  {
    out := before;
    assert done + names[..0] == done;
    for i := 0 to |names|
      invariant out == Firsts(w, done + names[..i])
    {
      assert (done + names[..i + 1])[..|done| + i] == done + names[..i];
      if names[i] in w.keys && w.keys[names[i]] != [] && names[i] !in out {
        out := out + [names[i]];
      }
    }
    assert names[..|names|] == names;
  }

  method OrderProviders(w: World, pinned: string) returns (out: seq<string>)
    ensures out == ProviderOrder(w, pinned)
  {
    hide Firsts;
    NoFirsts(w);
    out := AddNames(w, NonEmpty(pinned), [], []);
    out := AddNames(w, NonEmpty(w.configured), out, [] + NonEmpty(pinned));
    out := AddNames(w, KNOWN_PROVIDERS, out, [] + NonEmpty(pinned) + NonEmpty(w.configured));
    out := AddNames(w, w.others, out, [] + NonEmpty(pinned) + NonEmpty(w.configured) + KNOWN_PROVIDERS);
    assert [] + NonEmpty(pinned) == NonEmpty(pinned);
  }

  lemma NoFirsts(w: World)
    ensures Firsts(w, []) == []
  {}

  method AddModels(plan: Plan, provider: string, why: Why, models: seq<Model>, keys: seq<string>)
    requires plan.Valid()
    modifies plan`routes, plan`blocked, plan`seen, plan`looked
    ensures plan.Valid() && plan.looked == old(plan.looked) + ModelItems(provider, why, models, keys)
  {
    hide KeysOf, Routes, Blocked, Each;
    for i := 0 to |models|
      invariant plan.Valid() && plan.looked == old(plan.looked) + ModelItems(provider, why, models[..i], keys)
    {
      assert models[..i + 1][..i] == models[..i];
      AddEach(plan, provider, models[i].id, why, keys);
    }
    assert models[..|models|] == models;
  }

  method AddTier(plan: Plan, req: Request, level: Level, provider: string)
    requires plan.Valid()
    modifies plan`routes, plan`blocked, plan`seen, plan`looked
    ensures plan.Valid() && plan.looked == old(plan.looked) + ProviderItems(plan.w, req, level, provider)
  {
    hide KeysOf, Routes, Blocked, KeysFor, Each, Tier, ModelItems;
    var w := plan.w;
    var keys := KeysFor(w, provider, req.key);
    if |keys| == 0 {
      return;
    }
    var why := ByTier;
    if provider == req.provider && req.model == "" {
      why := Default;
    }
    AddModels(plan, provider, why, Tier(w.catalog(provider), level, w.preferred(provider), w.cheap(provider)), keys);
    if w.fallback(provider) != "" {
      AddEach(plan, provider, w.fallback(provider), why, keys);
    }
  }

  method AddTiers(plan: Plan, req: Request, level: Level)
    requires plan.Valid() && plan.looked == []
    modifies plan`routes, plan`blocked, plan`seen, plan`looked
    ensures plan.Valid()
    ensures plan.looked == TierItems(plan.w, req, level, ProviderOrder(plan.w, req.provider))
  {
    hide KeysOf, Routes, Blocked, KeysFor, Each, ProviderItems, ProviderOrder;
    if req.provider != "" && req.model != "" {
      var keys := KeysFor(plan.w, req.provider, req.key);
      if |keys| > 0 {
        AddEach(plan, req.provider, req.model, Pinned, keys);
      } else {
        NoKeysNoChoices(req.provider, req.model, Pinned);
      }
    }
    var order := OrderProviders(plan.w, req.provider);
    for i := 0 to |order|
      invariant plan.Valid() && plan.looked == TierItems(plan.w, req, level, order[..i])
    {
      assert order[..i + 1][..i] == order[..i];
      AddTier(plan, req, level, order[i]);
    }
    assert order[..|order|] == order;
  }

  lemma NoKeysNoChoices(provider: string, model: string, why: Why)
    ensures Each(provider, model, why, []) == []
  {}

  function Relabelled(routes: seq<Item>): (r: seq<Item>)
    requires forall i | i in routes :: i.Choice?
    ensures |r| == |routes|
  {
    if routes == [] then [] else [routes[0].(why := LastGasp)] + Relabelled(routes[1..])
  }

  lemma {:induction false} RoutesHaveKeys(w: World, items: seq<Item>, max: nat)
    ensures forall i | i in Routes(w, items, max) :: i.Choice?
  {
    forall i | i in Routes(w, items, max) ensures i.Choice? {
      RoutesAreChoices(w, items, max, i);
    }
  }

  /** The routes of a request at a level. */
  function RoutesAt(w: World, req: Request, level: Level): (r: seq<Item>)
    ensures forall i | i in r :: i.Choice?
  {
    RoutesHaveKeys(w, ItemsFor(w, req, level), MaxRoutes(req));
    Routes(w, ItemsFor(w, req, level), MaxRoutes(req))
  }

  function BlockedAt(w: World, req: Request, level: Level): seq<Item> {
    Blocked(w, ItemsFor(w, req, level), MaxRoutes(req))
  }

  /** Nothing for the strongest models: the plan is made again, one level lower. */
  predicate LooksAgain(w: World, req: Request) {
    req.candidates == [] && LevelFor(req) == Deep && RoutesAt(w, req, Deep) == []
  }

  function Offered(w: World, req: Request): seq<Item> {
    if LooksAgain(w, req) then Relabelled(RoutesAt(w, req, Standard)) else RoutesAt(w, req, LevelFor(req))
  }

  function PutAside(w: World, req: Request): seq<Item> {
    BlockedAt(w, req, LevelFor(req))
    + if LooksAgain(w, req) && RoutesAt(w, req, Standard) != [] then BlockedAt(w, req, Standard) else []
  }

  /** The second look found something. */
  predicate FallsBack(w: World, req: Request) {
    w.keys != map[] && LooksAgain(w, req) && RoutesAt(w, req, Standard) != []
  }

  const NO_KEYS := "no API key is set up yet; add one in Settings"

  /** Up to three refusals, each with its label and reason. */
  function Listed(w: World, blocked: seq<Refusal>, n: nat): string
    requires n <= |blocked|
  {
    if n == 0 then ""
    else
      var b := blocked[n - 1];
      Listed(w, blocked, n - 1) + (if n == 1 then "" else ", ") + w.display(b.item) + " (" + b.reason + ")"
  }

  function Explanation(w: World, blocked: seq<Refusal>): string {
    if blocked == [] then "no model in this tier can serve the request"
    else "every candidate is unavailable: " + Listed(w, blocked, if |blocked| < 3 then |blocked| else 3)
  }

  method ExplainEmpty(w: World, blocked: seq<Refusal>) returns (text: string)
    ensures text == Explanation(w, blocked)
  {
    if |blocked| == 0 {
      return "no model in this tier can serve the request";
    }
    var parts := "";
    var n := 0;
    while n < |blocked| && n < 3
      invariant n <= |blocked| && n <= 3 && parts == Listed(w, blocked, n)
    {
      parts := parts + (if n == 0 then "" else ", ") + w.display(blocked[n].item) + " (" + blocked[n].reason + ")";
      n := n + 1;
    }
    return "every candidate is unavailable: " + parts;
  }

  /** What is said when there is no route. */
  function ReasonFor(w: World, req: Request): string {
    if w.keys == map[] then NO_KEYS
    else if Offered(w, req) == [] then Explanation(w, Refusals(w, PutAside(w, req)))
    else ""
  }

  /** Router.Plan. Without any key there is nothing to plan. */
  method MakePlan(w: World, req: Request) returns (plan: Plan)
    ensures fresh(plan) && plan.nextIndex == 0
    ensures w.keys == map[] ==> plan.routes == [] && plan.blocked == []
    ensures w.keys != map[] ==> plan.routes == Offered(w, req) && plan.blocked == Refusals(w, PutAside(w, req))
    ensures plan.reason == ReasonFor(w, req)
    ensures plan.level == if FallsBack(w, req) then Standard else LevelFor(req)
    decreases if LevelFor(req) == Deep then 1 else 0
  {
    hide KeysOf, Routes, Blocked, TierItems, ProviderOrder, Explanation, ItemsFor, RoutesAt, BlockedAt, Refusals,
         Relabelled;
    var level := LevelFor(req);
    plan := new Plan(w, MaxRoutes(req), level);
    NothingYet(w, MaxRoutes(req));
    if w.keys == map[] {
      plan.reason := NO_KEYS;
      return;
    }
    if |req.candidates| > 0 {
      AddCandidates(plan, req);
      PlansLevel(plan, req, level);
      if |plan.routes| == 0 {
        plan.reason := ExplainEmpty(w, plan.blocked);
      }
      return;
    }
    AddTiers(plan, req, level);
    ItemsOfTiers(w, req, level);
    PlansLevel(plan, req, level);
    if |plan.routes| == 0 && level == Deep {
      var lower := req.(level := Some(Standard));
      SamePlans(w, req, lower);
      var p := MakePlan(w, lower);
      if |p.routes| > 0 {
        p.routes := Relabel(p.routes);
        RefusalsJoin(w, BlockedAt(w, req, Deep), BlockedAt(w, req, Standard));
        p.blocked := plan.blocked + p.blocked;
        return p;
      }
    }
    if |plan.routes| == 0 {
      plan.reason := ExplainEmpty(w, plan.blocked);
    }
  }

  /** A plan that has looked at everything for a level. */
  lemma PlansLevel(plan: Plan, req: Request, level: Level)
    requires plan.Valid() && plan.looked == ItemsFor(plan.w, req, level) && plan.max == MaxRoutes(req)
    ensures plan.routes == RoutesAt(plan.w, req, level)
    ensures plan.blocked == Refusals(plan.w, BlockedAt(plan.w, req, level))
  {
    hide Routes, Blocked, ItemsFor, Refusals, KeysOf;
  }

  lemma ItemsOfTiers(w: World, req: Request, level: Level)
    requires req.candidates == []
    ensures ItemsFor(w, req, level) == TierItems(w, req, level, ProviderOrder(w, req.provider))
  {
    hide TierItems, ProviderOrder;
  }

  lemma SamePlans(w: World, req: Request, lower: Request)
    requires lower == req.(level := lower.level) && req.candidates == []
    ensures forall level :: RoutesAt(w, lower, level) == RoutesAt(w, req, level)
    ensures forall level :: BlockedAt(w, lower, level) == BlockedAt(w, req, level)
  {
    SameItems(w, req, lower);
    hide Routes, Blocked, ItemsFor;
  }

  lemma RefusalsJoin(w: World, a: seq<Item>, b: seq<Item>)
    ensures Refusals(w, a) + Refusals(w, b) == Refusals(w, a + b)
  {}

  method Relabel(routes: seq<Item>) returns (r: seq<Item>)
    requires forall i | i in routes :: i.Choice?
    ensures r == Relabelled(routes)
  {
    r := [];
    assert routes[0..] == routes;
    for i := 0 to |routes|
      invariant r + Relabelled(routes[i..]) == Relabelled(routes)
    {
      assert routes[i..][1..] == routes[i + 1..];
      r := r + [routes[i].(why := LastGasp)];
    }
  }

  lemma NothingYet(w: World, max: nat)
    ensures Routes(w, [], max) == [] && Blocked(w, [], max) == []
  {}

  lemma {:induction false} SameItems(w: World, req: Request, lower: Request)
    requires lower == req.(level := lower.level) && req.candidates == []
    ensures forall level :: ItemsFor(w, lower, level) == ItemsFor(w, req, level)
  {
    forall level ensures ItemsFor(w, lower, level) == ItemsFor(w, req, level) {
      SameTierItems(w, req, lower, level, ProviderOrder(w, req.provider));
    }
  }

  lemma {:induction false} SameTierItems(w: World, req: Request, lower: Request, level: Level, order: seq<string>)
    requires lower == req.(level := lower.level)
    ensures TierItems(w, lower, level, order) == TierItems(w, req, level, order)
  {
    if order != [] {
      SameTierItems(w, req, lower, level, order[..|order| - 1]);
    }
  }

  /** The second look never finds anything: if one is taken, there is no route at all. */
  lemma SecondLookIsFutile(w: World, req: Request)
    requires LooksAgain(w, req) && HasPlainKeys(w)
    ensures Offered(w, req) == [] && PutAside(w, req) == BlockedAt(w, req, Deep)
  {
    AnyRouteWhateverTheLevel(w, req, Deep, Standard);
    hide Routes, ItemsFor;
  }

  // The cap

  lemma {:induction false} PickedGrows(w: World, items: seq<Item>, m: nat, n: nat)
    requires m <= n <= |items|
    ensures PickedBefore(w, items, m) <= PickedBefore(w, items, n)
    decreases n
  {
    hide Picked;
    if m < n {
      PickedGrows(w, items, m, n - 1);
    }
  }

  lemma FullOrOffered(w: World, items: seq<Item>, max: nat, k: nat)
    requires k < |items| && Picked(w, items, k)
    ensures |Routes(w, items, max)| <= max
    ensures items[k] in Routes(w, items, max) || |Routes(w, items, max)| == max
  {
    assert items[..|items|] == items;
    OfferedIff(w, items, max, |items|, k);
    PickedGrows(w, items, k, |items|);
    hide Routes, Picked, PickedBefore;
  }

  lemma NoMoreThan(w: World, items: seq<Item>, max: nat)
    ensures |Routes(w, items, max)| <= max
  {}

  /**
    A plan has at most as many routes as were asked for, or six; with fewer, every choice that can serve
    and whose key no earlier one has is offered. Without a level it is the standard plan.
   */
  lemma PlanIsCapped(w: World, req: Request, k: nat)
    ensures
      var cap := if req.maxRoutes > 0 then req.maxRoutes else 6;
      var items := ItemsFor(w, req, LevelFor(req));
      && |Offered(w, req)| <= cap
      && (k < |items| && Picked(w, items, k) && |Offered(w, req)| < cap ==> items[k] in Offered(w, req))
    ensures req.level == None ==> Offered(w, req) == Offered(w, req.(level := Some(Standard)))
  {
    var items := ItemsFor(w, req, LevelFor(req));
    NoMoreThan(w, ItemsFor(w, req, Standard), MaxRoutes(req));
    NoMoreThan(w, items, MaxRoutes(req));
    if k < |items| && Picked(w, items, k) {
      FullOrOffered(w, items, MaxRoutes(req), k);
    }
    WithoutLevel(w, req);
    hide Routes, ItemsFor, Picked;
  }

  lemma {:induction false} SameCandidates(w: World, req: Request, lower: Request, ordered: seq<Candidate>, n: nat)
    requires lower == req.(level := lower.level) && n <= |ordered|
    ensures CandidateItems(w, lower, ordered, n) == CandidateItems(w, req, ordered, n)
  {
    if n > 0 {
      SameCandidates(w, req, lower, ordered, n - 1);
    }
  }

  lemma WithoutLevel(w: World, req: Request)
    ensures ItemsFor(w, req.(level := Some(Standard)), Standard) == ItemsFor(w, req, Standard)
    ensures MaxRoutes(req) == MaxRoutes(req.(level := Some(Standard)))
  {
    var lower := req.(level := Some(Standard));
    if req.candidates == [] {
      SameItems(w, req, lower);
    } else {
      var ordered := Ordered(req.candidates, req.strategy, w.meta);
      SameCandidates(w, req, lower, ordered, |ordered|);
    }
  }
}
