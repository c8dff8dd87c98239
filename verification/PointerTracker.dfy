/** The tracker as it runs: insertions collected in a table while visiting, spliced in at
    descending offsets. */
module PointerTracker {
  import opened PointerSplice

  function Concat(parts: seq<Text>): Text { if parts == [] then "" else parts[0] + Concat(parts[1..]) }

  lemma {:induction false} ConcatAppend(parts: seq<Text>, last: Text)
    ensures Concat(parts + [last]) == Concat(parts) + last
  {
    if parts == [] {
      assert parts + [last] == [last] && [last][1..] == [];
      assert Concat([last]) == last + "";
    } else {
      assert (parts + [last])[1..] == parts[1..] + [last];
      ConcatAppend(parts[1..], last);
    }
  }

  lemma {:induction false} ConcatPrepend(parts: seq<Text>, first: Text)
    ensures Concat([first] + parts) == first + Concat(parts)
  {
    assert ([first] + parts)[1..] == parts;
  }

  function PartsAt(insertions: map<nat, seq<Text>>, o: nat): seq<Text> { if o in insertions then insertions[o] else [] }

  /** The table holds at each offset what the recorded edits insert there. */
  ghost predicate Holds(insertions: map<nat, seq<Text>>, edits: seq<Edit>) {
    forall o :: Concat(PartsAt(insertions, o)) == Inserted(edits, o)
  }

  lemma {:induction false} ClosersMore(edits: seq<Edit>, e: Edit, o: nat)
    ensures Closers(edits + [e], o) == (if e.end == o then CLOSE else "") + Closers(edits, o)
  {
    hide CLOSE;
    ClosersAppend(edits, [e], o);
    FirstEdit(e, edits, o);
    ClosersAppend([e], edits, o);
    ClosersAppend([], edits, o);
    FirstEdit(e, [], o);
    assert [e] + [] == [e];
  }

  lemma {:induction false} OpenersMore(edits: seq<Edit>, e: Edit, o: nat)
    ensures Openers(edits + [e], o) == Openers(edits, o) + if e.start == o then Opening(e.helper) else ""
  {
    hide Opening;
    OpenersAppend(edits, [e], o);
    FirstEdit(e, [], o);
    assert [e] + [] == [e];
  }

  lemma {:induction false} Regroup(p: Text, c: Text, s: Text, q: Text)
    ensures (p + c) + (s + q) == p + ((c + s) + q)
  {
    assert (p + c) + (s + q) == p + (c + (s + q)) && c + (s + q) == (c + s) + q;
  }

  /** What one more edit does at an offset: opening behind, then closing in front. */
  lemma {:induction false} InsertedMore(edits: seq<Edit>, e: Edit, o: nat)
    ensures Inserted(edits + [e], o)
            == (if e.end == o then CLOSE else "") + (Inserted(edits, o) + (if e.start == o then Opening(e.helper) else ""))
  {
    hide CLOSE, Opening, Openers, Closers;
    ClosersMore(edits, e, o);
    OpenersMore(edits, e, o);
    Regroup(if e.end == o then CLOSE else "", Closers(edits, o), Openers(edits, o), if e.start == o then Opening(e.helper) else "");
  }

  class PointerTracker {
    var insertions: map<nat, seq<Text>>
    ghost var edits: seq<Edit>

    ghost predicate Valid()
      reads this
    {
      Holds(insertions, edits)
    }

    constructor ()
      ensures Valid() && edits == []
    {
      insertions, edits := map[], [];
    }

    method Wrap(start: nat, end: nat, helper: Text)
      requires Valid()
      modifies this
      ensures Valid() && edits == old(edits) + [Edit(start, end, helper)]
    {
      var openings := PartsAt(insertions, start) + [Opening(helper)];
      var withStart := insertions[start := openings];
      var closings := [CLOSE] + PartsAt(withStart, end);
      ghost var e := Edit(start, end, helper);
      forall o ensures Concat(PartsAt(withStart[end := closings], o)) == Inserted(edits + [e], o) {
        WrapOnce(insertions, edits, e, o);
      }
      insertions := withStart[end := closings];
      edits := edits + [e];
    }

    method Record(c: Cursor)
      requires Valid()
      modifies this
      ensures Valid() && edits == old(edits) + Own(c)
    {
      hide Holds;
      if c.kind.NewExpr? {
        Wrap(c.start, c.end, "__trace_allocated");
      } else if c.kind.DeleteExpr? && c.children != [] {
        var operand := c.children[|c.children| - 1];
        Wrap(operand.start, operand.end, "__trace_deleting");
      }
    }

    /** Records the wraps of a node and then of its children, in order. */
    method Visit(c: Cursor)
      requires Valid()
      modifies this
      ensures Valid() && edits == old(edits) + PointerSplice.Visit(c)
      decreases c
    {
      hide Holds, Own;
      if c.kind.Skipped? { return; }
      Record(c);
      for i := 0 to |c.children|
        invariant Valid() && edits == old(edits) + Own(c) + VisitAll(c.children[..i])
      {
        Visit(c.children[i]);
        VisitAllAppend(c.children[..i], c.children[i]);
        assert c.children[..i + 1] == c.children[..i] + [c.children[i]];
      }
      assert c.children[..|c.children|] == c.children;
    }

    /** From the highest offset down, so that lower offsets stay where they are. */
    method Splice(raw: Text) returns (out: Text)
      requires Valid()
      ensures out == Spliced(raw, edits, 0)
    {
      hide Spliced, Inserted, Concat;
      out := raw;
      var offset := |raw| + 1;
      while offset > 0
        invariant 0 <= offset <= |raw| + 1
        invariant out == if offset == |raw| + 1 then raw else raw[..offset] + Spliced(raw, edits, offset)
      {
        offset := offset - 1;
        assert Concat(PartsAt(insertions, offset)) == Inserted(edits, offset);
        SpliceOne(raw, edits, offset);
        NothingThere(out, offset);
        if offset in insertions { out := out[..offset] + Concat(insertions[offset]) + out[offset..]; }
      }
    }
  }

  lemma {:induction false} WrapOnce(insertions: map<nat, seq<Text>>, edits: seq<Edit>, e: Edit, o: nat)
    requires Holds(insertions, edits)
    ensures var withStart := insertions[e.start := PartsAt(insertions, e.start) + [Opening(e.helper)]];
            Concat(PartsAt(withStart[e.end := [CLOSE] + PartsAt(withStart, e.end)], o)) == Inserted(edits + [e], o)
  {
    hide CLOSE, Opening, Inserted, Concat;
    var withStart := insertions[e.start := PartsAt(insertions, e.start) + [Opening(e.helper)]];
    InsertedMore(edits, e, o);
    ConcatAppend(PartsAt(insertions, o), Opening(e.helper));
    ConcatPrepend(PartsAt(withStart, o), CLOSE);
    assert Concat(PartsAt(insertions, o)) == Inserted(edits, o);
    assert Inserted(edits, o) + "" == Inserted(edits, o);
    assert "" + Inserted(edits, o) == Inserted(edits, o);
  }

  lemma {:induction false} NothingThere(out: Text, o: nat)
    requires o <= |out|
    ensures out[..o] + Concat([]) + out[o..] == out
  {}

  /** One splice at an offset, everything above it done. */
  lemma {:induction false} SpliceOne(raw: Text, edits: seq<Edit>, o: nat)
    requires o <= |raw|
    ensures var above := if o == |raw| then raw else raw[..o + 1] + Spliced(raw, edits, o + 1);
            && |above| >= o && above[..o] == raw[..o]
            && raw[..o] + Spliced(raw, edits, o) == above[..o] + Inserted(edits, o) + above[o..]
  {
    hide Inserted;
    if o < |raw| {
      var rest := Spliced(raw, edits, o + 1);
      var above := raw[..o + 1] + rest;
      assert above[o..] == [raw[o]] + rest;
    } else {
      assert raw[o..] == "";
    }
  }

  /** For every syntax tree whose allocations and deleted operands nest: the tracker's output is the
      text with every one of them wrapped around its own wrapped text. */
  method TrackPointerLifetimes(raw: Text, c: Cursor) returns (out: Text)
    requires Inside(Wraps(c), 0, |raw|)
    ensures out == Render(raw, Wraps(c), 0, |raw|)
  {
    hide Visit, Spliced, Render, Inside, Inserted;
    var tracker := new PointerTracker();
    tracker.Visit(c);
    out := tracker.Splice(raw);
    TrackingWraps(raw, c);
    assert [] + Visit(c) == Visit(c);
  }

  // ---- the source is all there -------------------------------------------------------------------------

  function Lengths(edits: seq<Edit>, o: nat, n: nat): seq<nat>
    requires o <= n
    decreases n - o
  {
    [|Inserted(edits, o)|] + if o == n then [] else Lengths(edits, o + 1, n)
  }

  /** Leave out so many characters before each character kept. */
  function LeaveOut(out: Text, lengths: seq<nat>): Text
    decreases |lengths|
  {
    if lengths == [] || |out| <= lengths[0] then ""
    else [out[lengths[0]]] + LeaveOut(out[lengths[0] + 1..], lengths[1..])
  }

  lemma {:induction false} LeaveOutOne(inserted: Text, kept: Text, rest: Text, lengths: seq<nat>)
    requires |kept| == 1
    ensures LeaveOut(inserted + (kept + rest), [|inserted|] + lengths) == kept + LeaveOut(rest, lengths)
  {
    var out, all := inserted + (kept + rest), [|inserted|] + lengths;
    assert out[|inserted|] == kept[0] && out[|inserted| + 1..] == rest && all[1..] == lengths;
    assert [kept[0]] == kept;
  }

  /** Deleting what was inserted gives back the source, whatever was inserted. */
  lemma {:induction false} SourceRecovered(raw: Text, edits: seq<Edit>, o: nat)
    requires o <= |raw|
    ensures LeaveOut(Spliced(raw, edits, o), Lengths(edits, o, |raw|)) == raw[o..]
    decreases |raw| - o
  {
    hide Inserted, LeaveOut;
    if o < |raw| {
      SourceRecovered(raw, edits, o + 1);
      LeaveOutOne(Inserted(edits, o), [raw[o]], Spliced(raw, edits, o + 1), Lengths(edits, o + 1, |raw|));
    } else {
      AllLeftOut(Inserted(edits, o));
      assert Inserted(edits, o) + "" == Inserted(edits, o);
    }
  }

  lemma {:induction false} AllLeftOut(inserted: Text)
    ensures LeaveOut(inserted, [|inserted|]) == "" && [|inserted|] + [] == [|inserted|]
  {}
}
