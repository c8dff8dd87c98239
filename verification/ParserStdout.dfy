/** Output shown at a step: all that was printed so far, cut at 64 KB of UTF-8 without splitting a
    character, on every state of a short trace and at loop boundaries of a long one. */
module ParserStdout {
  import opened Basics

  const CAP_BYTES: nat := 65536
  const STEP_THRESHOLD: nat := 2000

  // ---- UTF-8 (section 3 of RFC 3629) --------------------------------------------------------------

  /** A Unicode scalar value. */
  predicate Scalar(c: nat) { c < 0xD800 || 0xE000 <= c < 0x11_0000 }

  type Char = c: nat | Scalar(c)
  type Text = seq<Char>

  /** Six bits to a following byte. */
  function Encode(c: Char): (bytes: seq<int>)
    ensures 1 <= |bytes| <= 4
  {
    var q, r := c / 0x40, c / 0x40 / 0x40;
    if c < 0x80 then [c]
    else if c < 0x800 then [0xC0 + q, 0x80 + c % 0x40]
    else if c < 0x1_0000 then [0xE0 + r, 0x80 + q % 0x40, 0x80 + c % 0x40]
    else [0xF0 + r / 0x40, 0x80 + r % 0x40, 0x80 + q % 0x40, 0x80 + c % 0x40]
  }

  /** How many bytes a character takes, by its first. */
  function LengthFrom(lead: int): (n: nat)
    ensures 1 <= n <= 4
  {
    if lead < 0xC0 then 1 else if lead < 0xE0 then 2 else if lead < 0xF0 then 3 else 4
  }

  function Decode(bytes: seq<int>): int
    requires bytes != [] && |bytes| == LengthFrom(bytes[0])
  {
    if |bytes| == 1 then bytes[0]
    else if |bytes| == 2 then (bytes[0] - 0xC0) * 0x40 + (bytes[1] - 0x80)
    else if |bytes| == 3 then ((bytes[0] - 0xE0) * 0x40 + (bytes[1] - 0x80)) * 0x40 + (bytes[2] - 0x80)
    else (((bytes[0] - 0xF0) * 0x40 + (bytes[1] - 0x80)) * 0x40 + (bytes[2] - 0x80)) * 0x40 + (bytes[3] - 0x80)
  }

  lemma {:induction false} DecodeEncode(c: Char)
    ensures |Encode(c)| == LengthFrom(Encode(c)[0]) && Decode(Encode(c)) == c
  {
    var q, r := c / 0x40, c / 0x40 / 0x40;
    assert c == q * 0x40 + c % 0x40 && q == r * 0x40 + q % 0x40 && r == r / 0x40 * 0x40 + r % 0x40;
  }

  function EncodeAll(t: Text): seq<int> { if t == [] then [] else Encode(t[0]) + EncodeAll(t[1..]) }

  /** Decoding that drops what is no character; here only an incomplete one at the end can occur. */
  function DecodeIgnore(bytes: seq<int>): Text
    decreases |bytes|
  {
    if bytes == [] then []
    else
      var n := LengthFrom(bytes[0]);
      if n > |bytes| then []
      else
        var c := Decode(bytes[..n]);
        (if c >= 0 && Scalar(c) then [c as Char] else []) + DecodeIgnore(bytes[n..])
  }

  function CapStdout(t: Text): (Text, bool) {
    var raw := EncodeAll(t);
    if |raw| <= CAP_BYTES then (t, false) else (DecodeIgnore(raw[..CAP_BYTES]), true)
  }

  // ---- cutting --------------------------------------------------------------------------------------

  /** How many characters fit in so many bytes. */
  function Fitting(t: Text, bytes: nat): (k: nat)
    ensures k <= |t|
  {
    if t == [] || |Encode(t[0])| > bytes then 0 else 1 + Fitting(t[1..], bytes - |Encode(t[0])|)
  }

  lemma {:induction false} EncodeAppend(a: Text, b: Text)
    ensures EncodeAll(a + b) == EncodeAll(a) + EncodeAll(b)
  {
    hide Encode;
    if a == [] { assert a + b == b; }
    else {
      assert (a + b)[1..] == a[1..] + b;
      EncodeAppend(a[1..], b);
    }
  }

  /** The longest prefix whose encoding fits. */
  lemma {:induction false} FittingIsLongest(t: Text, bytes: nat)
    ensures var k := Fitting(t, bytes);
            |EncodeAll(t[..k])| <= bytes && (k < |t| ==> |EncodeAll(t[..k + 1])| > bytes)
  {
    hide Encode;
    if t != [] {
      var n := |Encode(t[0])|;
      if n <= bytes {
        FittingIsLongest(t[1..], bytes - n);
        var k := Fitting(t[1..], bytes - n);
        assert t[..k + 1] == [t[0]] + t[1..][..k] && t[..k + 1][0] == t[0] && t[..k + 1][1..] == t[1..][..k];
        if k < |t[1..]| { assert t[..k + 2][0] == t[0] && t[..k + 2][1..] == t[1..][..k + 1]; }
      } else {
        assert t[..1][0] == t[0] && t[..1][1..] == [];
      }
    }
  }

  lemma {:induction false} CutBehind(first: seq<int>, rest: seq<int>, bytes: nat)
    requires |first| <= bytes <= |first + rest|
    ensures (first + rest)[..bytes][..|first|] == first && (first + rest)[..bytes][|first|..] == rest[..bytes - |first|]
  {}

  /** Cutting the bytes and decoding what is left gives just the characters that fit. */
  lemma {:induction false} CutDecodes(t: Text, bytes: nat)
    requires bytes < |EncodeAll(t)|
    ensures DecodeIgnore(EncodeAll(t)[..bytes]) == t[..Fitting(t, bytes)]
  {
    hide Encode, Decode;
    var first, rest := Encode(t[0]), EncodeAll(t[1..]);
    var n, cut := |first|, EncodeAll(t)[..bytes];
    DecodeEncode(t[0]);
    assert EncodeAll(t) == first + rest;
    if bytes > 0 { assert cut[0] == first[0]; }
    if n <= bytes {
      CutBehind(first, rest, bytes);
      CutDecodes(t[1..], bytes - n);
      assert t[..Fitting(t, bytes)] == [t[0]] + t[1..][..Fitting(t[1..], bytes - n)];
    }
  }

  /** The longest prefix of the text that fits, and whether anything was cut. */
  lemma {:induction false} CapIsLongestPrefix(t: Text)
    ensures var (capped, truncated) := CapStdout(t);
            && capped <= t && |EncodeAll(capped)| <= CAP_BYTES
            && (truncated <==> capped != t)
            && (capped != t ==> |EncodeAll(t[..|capped| + 1])| > CAP_BYTES)
  {
    hide Encode, Decode, CAP_BYTES;
    if |EncodeAll(t)| > CAP_BYTES {
      CutDecodes(t, CAP_BYTES);
      FittingIsLongest(t, CAP_BYTES);
      assert t[..|t|] == t;
    }
  }

  lemma {:induction false} FittingGrows(a: Text, b: Text, bytes: nat)
    requires a <= b
    ensures Fitting(a, bytes) <= Fitting(b, bytes) && (Fitting(a, bytes) < |a| ==> Fitting(b, bytes) == Fitting(a, bytes))
  {
    hide Encode;
    if a != [] {
      assert a[1..] <= b[1..];
      if |Encode(a[0])| <= bytes { FittingGrows(a[1..], b[1..], bytes - |Encode(a[0])|); }
    }
  }

  /** What is shown later extends what was shown before. */
  lemma {:induction false} CapExtends(a: Text, b: Text)
    requires a <= b
    ensures CapStdout(a).0 <= CapStdout(b).0
  {
    hide Encode, Decode, CAP_BYTES;
    FittingGrows(a, b, CAP_BYTES);
    CapIsFitting(a);
    CapIsFitting(b);
  }

  lemma {:induction false} CapIsFitting(t: Text)
    ensures CapStdout(t).0 == t[..Fitting(t, CAP_BYTES)]
  {
    hide Encode, Decode, CAP_BYTES;
    if |EncodeAll(t)| > CAP_BYTES {
      CutDecodes(t, CAP_BYTES);
    } else {
      FittingIsLongest(t, CAP_BYTES);
      var k := Fitting(t, CAP_BYTES);
      if k < |t| {
        assert t[..k + 1] + t[k + 1..] == t;
        EncodeAppend(t[..k + 1], t[k + 1..]);
      }
      assert t[..|t|] == t;
    }
  }

  // ---- which states carry output ------------------------------------------------------------------------

  datatype Kind = State | Iter | OtherKind

  datatype Event = Event(kind: Kind, line: nat)

  /** What a state is given. */
  datatype Shown = Shown(stdout: Option<Text>, truncated: bool)

  /** All that was printed up to and with event n - 1; an event without a delta printed nothing. */
  function Printed(deltas: seq<Option<Text>>, n: nat): Text
    requires n <= |deltas|
  {
    if n == 0 then [] else Printed(deltas, n - 1) + if deltas[n - 1].Some? then deltas[n - 1].value else []
  }

  /** A loop step that is the first or the last of its line. */
  predicate EdgeIter(events: seq<Event>, j: int) {
    0 <= j < |events| && events[j].kind.Iter?
    && ((forall i :: 0 <= i < j && events[i].kind.Iter? ==> events[i].line != events[j].line)
        || (forall i :: j < i < |events| && events[i].kind.Iter? ==> events[i].line != events[j].line))
  }

  predicate LastState(events: seq<Event>, i: nat) {
    i < |events| && events[i].kind.State? && forall j :: i < j < |events| ==> !events[j].kind.State?
  }

  /** A short trace shows output at every state, a long one next to loop edges and at the last state. */
  predicate Carries(events: seq<Event>, i: nat)
    requires i < |events|
  {
    events[i].kind.State?
    && (|events| <= STEP_THRESHOLD || LastState(events, i) || EdgeIter(events, i - 1) || EdgeIter(events, i + 1))
  }

  /** What event i shows, if anything was printed at all. */
  function ShownAt(events: seq<Event>, deltas: seq<Option<Text>>, i: nat): Shown
    requires i < |events| == |deltas|
  {
    if Carries(events, i) then
      var (capped, truncated) := CapStdout(Printed(deltas, i + 1));
      Shown(Some(capped), truncated)
    else Shown(None, false)
  }

  lemma {:induction false} PrintedGrows(deltas: seq<Option<Text>>, m: nat, n: nat)
    requires m <= n <= |deltas|
    ensures Printed(deltas, m) <= Printed(deltas, n)
    decreases n
  {
    if m < n { PrintedGrows(deltas, m, n - 1); }
  }

  /** A state that carries output shows the longest prefix of all printed so far that fits, and
      later ones extend it; the last state always carries it, however long the trace. */
  lemma {:induction false} OutputIsCumulative(events: seq<Event>, deltas: seq<Option<Text>>, i: nat, j: nat)
    requires i <= j < |events| == |deltas| && Carries(events, i) && Carries(events, j)
    ensures var a, b := ShownAt(events, deltas, i), ShownAt(events, deltas, j);
            && a.stdout.Some? && b.stdout.Some? && a.stdout.value <= b.stdout.value
            && a.stdout.value <= Printed(deltas, i + 1) && (a.truncated <==> a.stdout.value != Printed(deltas, i + 1))
  {
    hide Encode, Decode, CAP_BYTES, EncodeAll, DecodeIgnore, Carries, CapStdout;
    PrintedGrows(deltas, i + 1, j + 1);
    CapExtends(Printed(deltas, i + 1), Printed(deltas, j + 1));
    CapIsLongestPrefix(Printed(deltas, i + 1));
  }

  lemma {:induction false} LastStateCarries(events: seq<Event>, i: nat)
    requires LastState(events, i)
    ensures Carries(events, i)
  {}

  // ---- as the program does it -----------------------------------------------------------------------------

  /** First and last loop step per line. */
  method IterEdges(events: seq<Event>) returns (edges: set<nat>)
    ensures forall j: nat :: j in edges <==> EdgeIter(events, j)
  {
    var firstIter: map<nat, nat>, lastIter: map<nat, nat> := map[], map[];
    for i := 0 to |events|
      invariant firstIter.Keys == lastIter.Keys
      invariant forall l :: l in firstIter ==> IsFirst(events, i, l, firstIter[l]) && IsLast(events, i, l, lastIter[l])
      invariant forall j :: 0 <= j < i && events[j].kind.Iter? ==> events[j].line in firstIter
    {
      if events[i].kind.Iter? {
        if events[i].line !in firstIter { firstIter := firstIter[events[i].line := i]; }
        lastIter := lastIter[events[i].line := i];
      }
    }
    edges := (set l | l in firstIter :: firstIter[l]) + (set l | l in lastIter :: lastIter[l]);
    forall j: nat ensures j in edges <==> EdgeIter(events, j) {
      if j in edges {
        var l :| l in firstIter && (firstIter[l] == j || lastIter[l] == j);
        assert IsFirst(events, |events|, l, firstIter[l]) && IsLast(events, |events|, l, lastIter[l]);
      }
      if EdgeIter(events, j) {
        var l := events[j].line;
        assert IsFirst(events, |events|, l, firstIter[l]) && IsLast(events, |events|, l, lastIter[l]);
      }
    }
  }

  predicate IsFirst(events: seq<Event>, n: nat, line: nat, j: nat)
    requires n <= |events|
  {
    j < n && events[j].kind.Iter? && events[j].line == line
    && forall i :: 0 <= i < j && events[i].kind.Iter? ==> events[i].line != line
  }

  predicate IsLast(events: seq<Event>, n: nat, line: nat, j: nat)
    requires n <= |events|
  {
    j < n && events[j].kind.Iter? && events[j].line == line
    && forall i :: j < i < n && events[i].kind.Iter? ==> events[i].line != line
  }

  /** The states a long trace shows output at. */
  method Boundary(events: seq<Event>) returns (boundary: set<nat>)
    requires |events| > STEP_THRESHOLD
    ensures forall i: nat :: i in boundary <==> i < |events| && Carries(events, i)
  {
    hide EdgeIter;
    var edges := IterEdges(events);
    boundary := {};
    var last: Option<nat> := None;
    for i := 0 to |events|
      invariant forall j: nat :: j in boundary <==>
                  j < i && events[j].kind.State? && (EdgeIter(events, j - 1) || EdgeIter(events, j + 1))
      invariant last.None? ==> forall j :: 0 <= j < i ==> !events[j].kind.State?
      invariant last.Some? ==> last.value < i && events[last.value].kind.State? && forall j :: last.value < j < i ==> !events[j].kind.State?
    {
      if events[i].kind.State? {
        last := Some(i);
        EdgeBefore(events);
        if (i > 0 && i - 1 in edges) || i + 1 in edges { boundary := boundary + {i}; }
      }
    }
    if last.Some? { boundary := boundary + {last.value}; }
  }

  lemma {:induction false} EdgeBefore(events: seq<Event>)
    ensures !EdgeIter(events, -1)
  {}

  /** Nothing is touched if nothing was printed anywhere; otherwise every event's part is set. */
  method ApplyIncrementalStdout(events: seq<Event>, deltas: seq<Option<Text>>, before: seq<Shown>) returns (shown: seq<Shown>)
    requires |events| == |deltas| == |before|
    ensures (forall i :: 0 <= i < |deltas| ==> deltas[i].None?) ==> shown == before
    ensures (exists i :: 0 <= i < |deltas| && deltas[i].Some?) ==>
              |shown| == |events|
              && forall i :: 0 <= i < |events| ==>
                   shown[i] == if events[i].kind.State? then ShownAt(events, deltas, i) else before[i]
  {
    hide Carries, CapStdout;
    if forall i :: 0 <= i < |deltas| ==> deltas[i].None? { return before; }
    var boundary: set<nat> := {};
    if |events| > STEP_THRESHOLD { boundary := Boundary(events); } else { ShortCarries(events); }
    shown := [];
    var cumulative: Text := [];
    for i := 0 to |events|
      invariant |shown| == i && cumulative == Printed(deltas, i)
      invariant forall j :: 0 <= j < i ==> shown[j] == if events[j].kind.State? then ShownAt(events, deltas, j) else before[j]
    {
      if deltas[i].Some? && deltas[i].value != [] { cumulative := cumulative + deltas[i].value; }
      var s := before[i];
      if events[i].kind.State? {
        if |events| <= STEP_THRESHOLD || i in boundary {
          var capped := CapStdout(cumulative);
          s := Shown(Some(capped.0), capped.1);
        } else {
          s := Shown(None, false);
        }
      }
      shown := shown + [s];
    }
  }

  lemma {:induction false} ShortCarries(events: seq<Event>)
    requires |events| <= STEP_THRESHOLD
    ensures forall i: nat :: i < |events| ==> (Carries(events, i) <==> events[i].kind.State?)
  {}
}
