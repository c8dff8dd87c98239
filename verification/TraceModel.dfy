/** Trace events and what the display takes from them. JSON payloads are kept as their text. */
module TraceModel {
  import opened Basics

  type Vars = string

  datatype Kind =
    | State(vars: Vars, stdout: Option<string>, heap: Option<string>)
    | Enter(params: Vars)
    | Iter
    | Branch(condition: string, taken: bool)
    | Exit(returnVal: string)

  datatype Event = Event(kind: Kind, func: string, depth: nat, line: nat)

  /** A call frame as the display names it: a function at a depth. */
  datatype Frame = Frame(func: string, depth: nat)

  function FrameOf(e: Event): Frame { Frame(e.func, e.depth) }

  /** Live payload of an event; loop and branch steps and exits carry none. */
  function LiveVars(e: Event): Option<Vars> {
    match e.kind
    case State(vars, _, _) => Some(vars)
    case Enter(params) => Some(params)
    case _ => None
  }

  datatype Snapshot = Snapshot(vars: Vars, step: nat)

  /** Nearest live snapshot of the frame among the first n events. */
  function LastLive(trace: seq<Event>, n: nat, f: Frame): Option<Snapshot>
    requires n <= |trace|
  {
    if n == 0 then None
    else if FrameOf(trace[n - 1]) == f && LiveVars(trace[n - 1]).Some? then Some(Snapshot(LiveVars(trace[n - 1]).value, n - 1))
    else LastLive(trace, n - 1, f)
  }

  function VarsOf(s: Option<Snapshot>): Option<Vars> { if s.Some? then Some(s.value.vars) else None }

  // ---- frame keys -------------------------------------------------------------------------

  function Digit(d: nat): char
    requires d < 10
  {
    "0123456789"[d]
  }

  function Decimal(n: nat): string {
    if n < 10 then [Digit(n)] else Decimal(n / 10) + [Digit(n % 10)]
  }

  function FrameKey(f: Frame): string { f.func + "@" + Decimal(f.depth) }

  lemma {:induction false} DecimalDigits(n: nat)
    ensures Decimal(n) != [] && forall i :: 0 <= i < |Decimal(n)| ==> Decimal(n)[i] != '@'
  {
    assert forall d: nat :: d < 10 ==> Digit(d) != '@';
    if n >= 10 { DecimalDigits(n / 10); }
  }

  lemma {:induction false} DigitInjective(a: nat, b: nat)
    requires a < 10 && b < 10 && Digit(a) == Digit(b)
    ensures a == b
  {}

  lemma {:induction false} DecimalInjective(a: nat, b: nat)
    requires Decimal(a) == Decimal(b)
    ensures a == b
  {
    var s := Decimal(a);
    assert s[|s| - 1] == Digit(a % 10) && s[|s| - 1] == Digit(b % 10);
    DigitInjective(a % 10, b % 10);
    if a >= 10 {
      DecimalDigits(a / 10);
      assert |s| >= 2;
      assert Decimal(a / 10) == s[..|s| - 1] == Decimal(b / 10);
      DecimalInjective(a / 10, b / 10);
    } else {
      if b >= 10 { DecimalDigits(b / 10); }
    }
  }

  /** Whatever characters function names have, two frames never share a key. */
  lemma {:induction false} FrameKeyInjective(f: Frame, g: Frame)
    requires FrameKey(f) == FrameKey(g)
    ensures f == g
  {
    var s, d, e := FrameKey(f), Decimal(f.depth), Decimal(g.depth);
    DecimalDigits(f.depth);
    DecimalDigits(g.depth);
    assert s[|s| - |d| - 1] == '@' && s[|s| - |e| - 1] == '@';
    assert |d| == |e|;
    assert s[|s| - |d|..] == d && s[|s| - |d|..] == e;
    DecimalInjective(f.depth, g.depth);
    assert f.func == s[..|s| - |d| - 1] == g.func;
  }

  // ---- the last-live cache ------------------------------------------------------------------

  type Cache = map<string, Snapshot>

  function Lookup(c: Cache, f: Frame): Option<Snapshot> {
    if FrameKey(f) in c then Some(c[FrameKey(f)]) else None
  }

  /** The cache after scanning the first n events. */
  function BuildCache(trace: seq<Event>, n: nat): Cache
    requires n <= |trace|
  {
    if n == 0 then map[]
    else Noted(BuildCache(trace, n - 1), trace[n - 1], n - 1)
  }

  /** A live event at step i replaces its frame's entry. */
  function Noted(c: Cache, e: Event, i: nat): Cache {
    var live := LiveVars(e);
    if live.Some? then c[FrameKey(FrameOf(e)) := Snapshot(live.value, i)] else c
  }

  lemma {:induction false} LookupUpdated(c: Cache, f: Frame, s: Snapshot, g: Frame)
    ensures Lookup(c[FrameKey(f) := s], g) == if g == f then Some(s) else Lookup(c, g)
  {
    if FrameKey(f) == FrameKey(g) { FrameKeyInjective(f, g); }
  }

  /** Scanning forward and scanning back find the same snapshot, for every frame. */
  lemma {:induction false} CacheIsLastLive(trace: seq<Event>, n: nat, f: Frame)
    requires n <= |trace|
    ensures Lookup(BuildCache(trace, n), f) == LastLive(trace, n, f)
  {
    if n > 0 {
      CacheIsLastLive(trace, n - 1, f);
      var e := trace[n - 1];
      if LiveVars(e).Some? { LookupUpdated(BuildCache(trace, n - 1), FrameOf(e), Snapshot(LiveVars(e).value, n - 1), f); }
    }
  }
}
