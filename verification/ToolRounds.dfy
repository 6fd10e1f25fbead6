/**
  The per-turn budget and its loop guard (internal/engine/turn_budget.go): how a round of tool calls
  is written down, and how many times in a row the same round was seen.
 */
module ToolRounds {
  import opened Text

  datatype Call = Call(name: string, args: string)

  /** One round: the calls a model asked for and what they returned. */
  datatype Round = Round(calls: seq<Call>, results: seq<string>)

  // What is hashed

  /** Length, colon, content. */
  function Part(p: string): string {
    Decimal(|p|) + ":" + p
  }

  function Encode(parts: seq<string>): string {
    if parts == [] then "" else Part(parts[0]) + Encode(parts[1..])
  }

  function PartsOf(r: Round, i: nat): seq<string>
    requires i < |r.calls|
  {
    [r.calls[i].name, r.calls[i].args] + if i < |r.results| then [r.results[i]] else []
  }

  function PartsFrom(r: Round, i: nat): seq<string>
    requires i <= |r.calls|
    decreases |r.calls| - i
  {
    if i == |r.calls| then [] else PartsOf(r, i) + PartsFrom(r, i + 1)
  }

  /** The text whose digest stands for the round. */
  function Written(r: Round): string {
    Encode(PartsFrom(r, 0))
  }

  /** Reads one part back. */
  function ReadPart(s: string): Option<(string, string)> {
    match ReadNat(s)
    case None => None
    case Some((n, rest)) =>
      if |rest| < n + 1 || rest[0] != ':' then None else Some((rest[1..n + 1], rest[n + 1..]))
  }

  function Decode(s: string): Option<seq<string>>
    decreases |s|
  {
    if s == "" then Some([])
    else
      match ReadPart(s)
      case None => None
      case Some((p, rest)) =>
        if |rest| >= |s| then None
        else
          match Decode(rest)
          case None => None
          case Some(ps) => Some([p] + ps)
  }

  lemma ReadsPart(p: string, rest: string)
    ensures ReadPart(Part(p) + rest) == Some((p, rest))
  {
    ReadsDecimal(|p|, ":" + p + rest);
    assert Part(p) + rest == Decimal(|p|) + (":" + p + rest);
    assert (":" + p + rest)[1..|p| + 1] == p && (":" + p + rest)[|p| + 1..] == rest;
    hide ReadNat, Decimal;
  }

  /** The parts can be read back, so no two lists of parts are written the same way. */
  lemma {:induction false} DecodeEncode(parts: seq<string>)
    ensures Decode(Encode(parts)) == Some(parts)
  {
    if parts != [] {
      var rest := Encode(parts[1..]);
      ReadsPart(parts[0], rest);
      DecodeEncode(parts[1..]);
      assert parts == [parts[0]] + parts[1..];
      hide ReadPart, Decimal;
    }
  }

  lemma PartsHead(r: Round, i: nat)
    requires i < |r.calls| == |r.results|
    ensures |PartsFrom(r, i)| >= 3
    ensures PartsFrom(r, i)[..3] == [r.calls[i].name, r.calls[i].args, r.results[i]]
    ensures PartsFrom(r, i)[3..] == PartsFrom(r, i + 1)
  {}

  lemma {:induction false} SameFrom(r: Round, q: Round, i: nat)
    requires |r.calls| == |r.results| && |q.calls| == |q.results| && i <= |r.calls| && i <= |q.calls|
    requires PartsFrom(r, i) == PartsFrom(q, i)
    ensures r.calls[i..] == q.calls[i..] && r.results[i..] == q.results[i..]
    decreases |r.calls| - i
  {
    if i < |r.calls| {
      PartsHead(r, i);
    }
    if i < |q.calls| {
      PartsHead(q, i);
    }
    if i < |r.calls| && i < |q.calls| {
      hide PartsFrom;
      var a, b := PartsFrom(r, i)[..3], PartsFrom(q, i)[..3];
      assert a[0] == b[0] && a[1] == b[1] && a[2] == b[2];
      SameFrom(r, q, i + 1);
      assert r.calls[i..] == [r.calls[i]] + r.calls[i + 1..] && r.results[i..] == [r.results[i]] + r.results[i + 1..];
      assert q.calls[i..] == [q.calls[i]] + q.calls[i + 1..] && q.results[i..] == [q.results[i]] + q.results[i + 1..];
    }
  }

  /** Every call has its result: two rounds are written the same way only when they are the same. */
  lemma SameTextSameRound(r: Round, q: Round)
    requires |r.calls| == |r.results| && |q.calls| == |q.results|
    ensures Written(r) == Written(q) <==> r == q
  {
    if Written(r) == Written(q) {
      DecodeEncode(PartsFrom(r, 0));
      DecodeEncode(PartsFrom(q, 0));
      SameFrom(r, q, 0);
      assert r.calls[0..] == r.calls && q.calls[0..] == q.calls;
      assert r.results[0..] == r.results && q.results[0..] == q.results;
    }
  }

  /** With results missing it is not: a missing result leaves no trace, so the next call's name takes its place. */
  lemma MissingResultsCollide(a: string, b: string, c: string, d: string, e: string, f: string)
    ensures Written(Round([Call(a, b), Call(c, d), Call(e, f)], [])) == Written(Round([Call(a, b), Call(d, e)], [c, f]))
  {
    var r, q := Round([Call(a, b), Call(c, d), Call(e, f)], []), Round([Call(a, b), Call(d, e)], [c, f]);
    assert PartsFrom(r, 3) == [] && PartsFrom(q, 2) == [];
    assert PartsFrom(r, 2) == [e, f];
    assert PartsFrom(r, 1) == [c, d, e, f];
    assert PartsFrom(q, 1) == [d, e, f];
    assert PartsFrom(r, 0) == [a, b, c, d, e, f] == PartsFrom(q, 0);
  }

  // How often the last round was repeated

  /** How many times in a row the last element occurs at the end. */
  function Repeats<T(==)>(s: seq<T>): (n: nat)
    ensures n <= |s| && (n == 0 <==> s == [])
  {
    if |s| < 2 then |s|
    else if s[|s| - 1] == s[|s| - 2] then Repeats(s[..|s| - 1]) + 1
    else 1
  }

  /** It is the length of the longest suffix whose elements are all the same. */
  lemma {:induction false} RepeatsIsLongest<T>(s: seq<T>, n: nat)
    requires s != []
    ensures n == Repeats(s) <==>
      && 0 < n <= |s|
      && (forall i | |s| - n <= i < |s| :: s[i] == s[|s| - 1])
      && (n < |s| ==> s[|s| - n - 1] != s[|s| - 1])
  {
    if |s| >= 2 && s[|s| - 1] == s[|s| - 2] {
      var t := s[..|s| - 1];
      RepeatsIsLongest(t, Repeats(t));
      if n > 0 {
        RepeatsIsLongest(t, n - 1);
      }
    }
  }

  function Texts(rounds: seq<Round>): (texts: seq<string>)
    ensures |texts| == |rounds|
  {
    if rounds == [] then [] else Texts(rounds[..|rounds| - 1]) + [Written(rounds[|rounds| - 1])]
  }

  ghost predicate AllAnswered(rounds: seq<Round>) {
    forall r | r in rounds :: |r.calls| == |r.results|
  }

  lemma {:induction false} TextAt(rounds: seq<Round>, i: nat)
    requires i < |rounds|
    ensures Texts(rounds)[i] == Written(rounds[i])
  {
    if i < |rounds| - 1 {
      TextAt(rounds[..|rounds| - 1], i);
    }
  }

  /** Counting equal texts is counting equal rounds, once every call has a result. */
  lemma {:induction false} RepeatedTexts(rounds: seq<Round>)
    requires AllAnswered(rounds)
    ensures Repeats(Texts(rounds)) == Repeats(rounds)
  {
    var n := |rounds|;
    if n >= 2 {
      hide Written, Texts;
      var earlier := rounds[..n - 1];
      RepeatedTexts(earlier);
      TextsOfEarlier(rounds);
      TextAt(rounds, n - 1);
      TextAt(rounds, n - 2);
      SameTextSameRound(rounds[n - 1], rounds[n - 2]);
    }
  }

  lemma TextsOfEarlier(rounds: seq<Round>)
    requires rounds != []
    ensures Texts(rounds)[..|rounds| - 1] == Texts(rounds[..|rounds| - 1])
  {}

  lemma TextsGrow(rounds: seq<Round>, r: Round)
    ensures Texts(rounds + [r]) == Texts(rounds) + [Written(r)]
  {
    assert (rounds + [r])[..|rounds|] == rounds;
  }

  lemma RepeatsGrow<T>(s: seq<T>, x: T)
    ensures Repeats(s + [x]) == if s != [] && s[|s| - 1] == x then Repeats(s) + 1 else 1
  {
    assert (s + [x])[..|s|] == s;
  }

  /** Writing down the part at `j` leaves the rest to be written. */
  lemma EncodeStep(text: string, parts: seq<string>, j: nat, later: seq<string>)
    requires j < |parts|
    ensures text + Encode(parts[j..] + later) == text + Part(parts[j]) + Encode(parts[j + 1..] + later)
  {
    assert (parts[j..] + later)[1..] == parts[j + 1..] + later;
    hide Part;
  }

  lemma PartsUnfold(r: Round, i: nat)
    requires i < |r.calls|
    ensures PartsFrom(r, i) == PartsOf(r, i) + PartsFrom(r, i + 1)
  {}

  /** What is fed to the hash. */
  method WriteRound(calls: seq<Call>, results: seq<string>) returns (text: string)
    ensures text == Written(Round(calls, results))
  {
    hide PartsFrom, Part, Encode;
    ghost var r := Round(calls, results);
    text := "";
    for i := 0 to |calls|
      invariant text + Encode(PartsFrom(r, i)) == Written(r)
    {
      var parts := [calls[i].name, calls[i].args];
      if i < |results| {
        parts := parts + [results[i]];
      }
      PartsUnfold(r, i);
      ghost var later := PartsFrom(r, i + 1);
      assert parts[0..] == parts == PartsOf(r, i);
      for j := 0 to |parts|
        invariant text + Encode(parts[j..] + later) == Written(r)
      {
        EncodeStep(text, parts, j, later);
        text := text + Part(parts[j]);
      }
      assert parts[|parts|..] + later == later;
    }
    EndOfParts(r);
    assert text + "" == text;
  }

  lemma EndOfParts(r: Round)
    ensures Encode(PartsFrom(r, |r.calls|)) == ""
  {}

  // The budget of a turn

  datatype Limits = Limits(maxTokens: int, maxCost: real, maxToolRounds: int)

  datatype Reason = OutOfTime | OutOfTokens | OutOfMoney | ToolCeiling | Repetition

  /** `lastRound` stands for the digest of the last round, none before the first. */
  class TurnBudget {
    const limits: Limits
    var tokens: int
    var cost: real
    var toolRounds: nat
    var lastRound: Option<string>
    var repeatRounds: nat
    ghost var rounds: seq<Round>  // every round so far

    ghost predicate Valid()
      reads this
    {
      && toolRounds == |rounds| && repeatRounds == Repeats(Texts(rounds))
      && lastRound == if rounds == [] then None else Some(Texts(rounds)[|rounds| - 1])
    }

    constructor (limits: Limits)
      ensures Valid() && this.limits == limits && tokens == 0 && cost == 0.0 && rounds == []
    {
      this.limits := limits;
      tokens, cost, toolRounds, lastRound, repeatRounds, rounds := 0, 0.0, 0, None, 0, [];
    }

    method AddUsage(tokens: int, cost: real)
      modifies this`tokens, this`cost
      ensures this.tokens == old(this.tokens) + tokens && this.cost == old(this.cost) + cost
    {
      this.tokens := this.tokens + tokens;
      this.cost := this.cost + cost;
    }

    /** `late` says whether the turn has run for its whole time budget. */
    function StopReason(late: bool): (r: Option<Reason>)
      reads this
      ensures r == None <==> !late && tokens < limits.maxTokens && cost < limits.maxCost
    {
      if late then Some(OutOfTime)
      else if tokens >= limits.maxTokens then Some(OutOfTokens)
      else if cost >= limits.maxCost then Some(OutOfMoney)
      else None
    }

    /** Answers how many times in a row a round with this text has been seen. */
    method ObserveToolRound(calls: seq<Call>, results: seq<string>) returns (repeats: nat)
      requires Valid()
      modifies this`toolRounds, this`lastRound, this`repeatRounds, this`rounds
      ensures Valid() && rounds == old(rounds) + [Round(calls, results)]
      ensures repeats == Repeats(Texts(rounds))
    {
      hide Written, Texts, Repeats;
      ghost var r := Round(calls, results);
      var text := WriteRound(calls, results);
      TextsGrow(rounds, r);
      RepeatsGrow(Texts(rounds), text);
      if lastRound == Some(text) {
        repeatRounds := repeatRounds + 1;
      } else {
        lastRound := Some(text);
        repeatRounds := 1;
      }
      toolRounds := toolRounds + 1;
      rounds := rounds + [r];
      return repeatRounds;
    }
  }
}
