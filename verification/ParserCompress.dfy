/** Collapsing runs of equal states, blind to addresses; and getting the trace back. */
module ParserCompress {
  import opened Basics

  // ---- values --------------------------------------------------------------------------------------

  /** Dictionaries are maps: the order of keys does not tell two values apart. */
  datatype Json = Null | Num(n: int) | Str(s: string) | Bool(b: bool) | Arr(items: seq<Json>) | Obj(fields: map<string, Json>)

  /** A dictionary that looks like a heap entry. */
  predicate EntryShaped(fields: map<string, Json>) { "type" in fields && ("fields" in fields || "refs" in fields) }

  predicate IsAddr(key: string, entry: bool) { key == "$addr" || (entry && key == "addr") }

  /** The value with addresses left out: "$addr" everywhere, "addr" in heap entries. */
  function StripAddrs(v: Json): Json
    decreases v
  {
    match v
    case Arr(items) => Arr(seq(|items|, i requires 0 <= i < |items| => StripAddrs(items[i])))
    case Obj(fields) =>
      var entry := EntryShaped(fields);
      Obj(map key | key in fields && !IsAddr(key, entry) :: StripAddrs(fields[key]))
    case _ => v
  }

  /** Without addresses there are none to leave out: the key is a normal form. */
  lemma {:induction false} StripTwice(v: Json)
    ensures StripAddrs(StripAddrs(v)) == StripAddrs(v)
    decreases v
  {
    match v
    case Arr(items) =>
      forall i | 0 <= i < |items| ensures StripAddrs(StripAddrs(items[i])) == StripAddrs(items[i]) { StripTwice(items[i]); }
    case Obj(fields) =>
      var entry, once := EntryShaped(fields), StripAddrs(v).fields;
      assert EntryShaped(once) == entry;
      forall key | key in once ensures StripAddrs(once[key]) == once[key] { StripTwice(fields[key]); }
      assert StripAddrs(Obj(once)).fields == once;
    case _ =>
  }

  // ---- events ----------------------------------------------------------------------------------------

  datatype Event =
    | State(line: nat, func: string, vars: Json, stdout: Option<string>, heap: Option<Json>)
    | Other(payload: string)

  datatype Key = Key(line: nat, func: string, vars: Json, stdout: Option<string>, heap: Option<Json>)

  /** What two states must agree on to be one. */
  function KeyOf(e: Event): Key
    requires e.State?
  {
    Key(e.line, e.func, StripAddrs(e.vars), e.stdout, if e.heap.None? then None else Some(StripAddrs(e.heap.value)))
  }

  predicate Same(a: Event, b: Event) { a == b || (a.State? && b.State? && KeyOf(a) == KeyOf(b)) }

  /** A kept event and the run it stands for; a run of one carries no mark. */
  datatype Kept = Kept(event: Event, start: nat, end: nat)

  function CountOf(k: Kept): int { k.end - k.start + 1 }

  /** Where the run of states like event i that goes on at j stops. */
  function RunEnd(events: seq<Event>, i: nat, j: nat): (r: nat)
    requires i < j <= |events| && events[i].State?
    ensures j <= r <= |events|
    decreases |events| - j
  {
    if j < |events| && events[j].State? && KeyOf(events[j]) == KeyOf(events[i]) then RunEnd(events, i, j + 1) else j
  }

  /** Where event i's run stops; what is no state stands alone. */
  function NextAt(events: seq<Event>, i: nat): (j: nat)
    requires i < |events|
    ensures i < j <= |events|
  {
    if events[i].State? then RunEnd(events, i, i + 1) else i + 1
  }

  function CompressFrom(events: seq<Event>, i: nat): seq<Kept>
    requires i <= |events|
    decreases |events| - i
  {
    if i == |events| then [] else [Kept(events[i], i, NextAt(events, i) - 1)] + CompressFrom(events, NextAt(events, i))
  }

  function Compress(events: seq<Event>): seq<Kept> { CompressFrom(events, 0) }

  // ---- lossless ----------------------------------------------------------------------------------------

  function Repeat(e: Event, n: nat): seq<Event> { seq(n, _ => e) }

  /** Every kept event as often as its run is long. */
  function Expand(ks: seq<Kept>): seq<Event> {
    if ks == [] then [] else Repeat(ks[0].event, if CountOf(ks[0]) > 0 then CountOf(ks[0]) else 0) + Expand(ks[1..])
  }

  /** Runs that lie end to end from i up to n. */
  predicate Tiles(ks: seq<Kept>, i: nat, n: nat) {
    if ks == [] then i == n else ks[0].start == i && i <= ks[0].end < n && Tiles(ks[1..], ks[0].end + 1, n)
  }

  lemma {:induction false} RunIsSame(events: seq<Event>, i: nat, j: nat)
    requires i < j <= |events| && events[i].State? && forall k :: i <= k < j ==> Same(events[k], events[i])
    ensures forall k :: i <= k < RunEnd(events, i, j) ==> Same(events[k], events[i])
    decreases |events| - j
  {
    hide KeyOf;
    if j < |events| && events[j].State? && KeyOf(events[j]) == KeyOf(events[i]) { RunIsSame(events, i, j + 1); }
  }

  lemma {:induction false} RunStops(events: seq<Event>, i: nat, j: nat)
    requires i < j <= |events| && events[i].State?
    ensures var r := RunEnd(events, i, j); r < |events| && events[r].State? ==> KeyOf(events[r]) != KeyOf(events[i])
    decreases |events| - j
  {
    hide KeyOf;
    if j < |events| && events[j].State? && KeyOf(events[j]) == KeyOf(events[i]) { RunStops(events, i, j + 1); }
  }

  predicate AllSame(a: seq<Event>, b: seq<Event>) { |a| == |b| && forall k :: 0 <= k < |a| ==> Same(a[k], b[k]) }

  lemma {:induction false} AllSameAppend(a: seq<Event>, b: seq<Event>, c: seq<Event>, d: seq<Event>)
    requires AllSame(a, b) && AllSame(c, d)
    ensures AllSame(a + c, b + d)
  {
    hide Same;
  }

  /** The runs tile the trace, and writing each kept event as often as its run is long gives the
      trace back up to what the key leaves out. */
  lemma {:induction false} CompressionLossless(events: seq<Event>, i: nat)
    requires i <= |events|
    ensures var ks := CompressFrom(events, i);
            Tiles(ks, i, |events|) && AllSame(Expand(ks), events[i..])
    decreases |events| - i
  {
    hide KeyOf, AllSame, Same, NextAt, Repeat, CompressFrom, Expand, CountOf;
    CompressCons(events, i);
    if i == |events| {
      NothingSame(events[i..]);
    } else {
      var j := NextAt(events, i);
      var rest := CompressFrom(events, j);
      CompressionLossless(events, j);
      RunSame(events, i, j);
      ExpandCons(Kept(events[i], i, j - 1), rest);
      assert ([Kept(events[i], i, j - 1)] + rest)[1..] == rest && events[i..] == events[i..j] + events[j..];
      AllSameAppend(Repeat(events[i], j - i), events[i..j], Expand(rest), events[j..]);
    }
  }

  lemma {:induction false} CompressCons(events: seq<Event>, i: nat)
    requires i <= |events|
    ensures i == |events| ==> CompressFrom(events, i) == [] && Expand([]) == []
    ensures i < |events| ==> CompressFrom(events, i) == [Kept(events[i], i, NextAt(events, i) - 1)] + CompressFrom(events, NextAt(events, i))
  {
    hide KeyOf, RunEnd;
  }

  lemma {:induction false} ExpandCons(k: Kept, rest: seq<Kept>)
    requires k.start <= k.end
    ensures Expand([k] + rest) == Repeat(k.event, k.end - k.start + 1) + Expand(rest)
  {
    hide Repeat;
    assert ([k] + rest)[1..] == rest;
  }

  lemma {:induction false} NothingSame(none: seq<Event>)
    requires none == []
    ensures AllSame([], none)
  {}

  lemma {:induction false} RunSame(events: seq<Event>, i: nat, j: nat)
    requires i < j <= |events| && j == NextAt(events, i)
    ensures AllSame(Repeat(events[i], j - i), events[i..j])
  {
    hide KeyOf, RunEnd;
    if events[i].State? { RunIsSame(events, i, i + 1); }
    forall k | 0 <= k < j - i ensures Same(Repeat(events[i], j - i)[k], events[i..j][k]) { assert Same(events[i + k], events[i]); }
  }

  // ---- nothing left to merge ------------------------------------------------------------------------------

  function Events(ks: seq<Kept>): (es: seq<Event>)
    ensures |es| == |ks|
  {
    seq(|ks|, k requires 0 <= k < |ks| => ks[k].event)
  }

  /** No two states side by side have one key. */
  predicate AllApart(es: seq<Event>) {
    forall k :: 0 <= k < |es| - 1 && es[k].State? && es[k + 1].State? ==> KeyOf(es[k]) != KeyOf(es[k + 1])
  }

  lemma {:induction false} KeptApart(events: seq<Event>, i: nat)
    requires i <= |events|
    ensures AllApart(Events(CompressFrom(events, i)))
    ensures i < |events| ==> CompressFrom(events, i) != [] && CompressFrom(events, i)[0].event == events[i]
    decreases |events| - i
  {
    hide KeyOf;
    if i < |events| {
      var j := NextAt(events, i);
      var rest := CompressFrom(events, j);
      KeptApart(events, j);
      if events[i].State? { RunStops(events, i, i + 1); }
      var es := Events(CompressFrom(events, i));
      assert es == [events[i]] + Events(rest);
      ApartCons(events[i], Events(rest));
    }
  }

  lemma {:induction false} ApartCons(e: Event, rest: seq<Event>)
    requires AllApart(rest) && (rest != [] && e.State? && rest[0].State? ==> KeyOf(e) != KeyOf(rest[0]))
    ensures AllApart([e] + rest)
  {
    hide KeyOf;
    var es := [e] + rest;
    forall k | 0 <= k < |es| - 1 && es[k].State? && es[k + 1].State? ensures KeyOf(es[k]) != KeyOf(es[k + 1]) {
      if k > 0 { assert es[k] == rest[k - 1] && es[k + 1] == rest[k]; }
    }
  }

  lemma {:induction false} ApartStays(es: seq<Event>, i: nat)
    requires i <= |es| && AllApart(es)
    ensures var ks := CompressFrom(es, i); |ks| == |es| - i && forall k :: 0 <= k < |ks| ==> ks[k] == Kept(es[i + k], i + k, i + k)
    decreases |es| - i
  {
    hide KeyOf, CompressFrom, NextAt, AllApart;
    CompressCons(es, i);
    if i < |es| {
      NextApart(es, i);
      ApartStays(es, i + 1);
    }
  }

  lemma {:induction false} NextApart(es: seq<Event>, i: nat)
    requires i < |es| && AllApart(es)
    ensures NextAt(es, i) == i + 1
  {
    hide KeyOf;
    if i + 1 < |es| && es[i].State? && es[i + 1].State? { assert KeyOf(es[i]) != KeyOf(es[i + 1]); }
  }

  /** Compressing what was compressed changes nothing. */
  lemma {:induction false} CompressTwice(events: seq<Event>)
    ensures Events(Compress(Events(Compress(events)))) == Events(Compress(events))
  {
    KeptApart(events, 0);
    ApartStays(Events(Compress(events)), 0);
  }

  // ---- as the program does it ---------------------------------------------------------------------------------

  method FindRunEnd(events: seq<Event>, i: nat) returns (j: nat)
    requires i < |events| && events[i].State?
    ensures j == NextAt(events, i)
  {
    hide KeyOf;
    j := i + 1;
    while j < |events| && events[j].State?
      invariant i < j <= |events| && RunEnd(events, i, i + 1) == RunEnd(events, i, j)
    {
      if KeyOf(events[j]) != KeyOf(events[i]) { break; }
      j := j + 1;
    }
  }

  lemma {:induction false} OneMoreRun(events: seq<Event>, i: nat, done: seq<Kept>)
    requires i < |events|
    ensures var j := NextAt(events, i);
            done + CompressFrom(events, i) == (done + [Kept(events[i], i, j - 1)]) + CompressFrom(events, j)
  {
    hide KeyOf;
  }

  lemma {:induction false} NoneLeft(events: seq<Event>)
    ensures CompressFrom(events, |events|) == []
  {}

  method CompressStateEvents(events: seq<Event>) returns (result: seq<Kept>)
    ensures result == Compress(events)
  {
    hide RunEnd, CompressFrom, KeyOf;
    result := [];
    var i := 0;
    NoneLeft(events);
    while i < |events|
      invariant i <= |events| && result + CompressFrom(events, i) == CompressFrom(events, 0)
    {
      var j := i + 1;
      if events[i].State? { j := FindRunEnd(events, i); }
      OneMoreRun(events, i, result);
      result := result + [Kept(events[i], i, j - 1)];
      i := j;
    }
  }
}
