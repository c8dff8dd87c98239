/** Wrapping new and delete expressions by insertions collected per offset and spliced in from the
    back, against wrapping them recursively. Text is taken byte by byte. */
module PointerSplice {

  type Text = string

  datatype Kind = NewExpr | DeleteExpr | OtherKind | Skipped

  /** A node of the syntax tree; those of other files or of an unknown kind are skipped. */
  datatype Cursor = Cursor(kind: Kind, start: nat, end: nat, children: seq<Cursor>)

  datatype Edit = Edit(start: nat, end: nat, helper: Text)

  // ---- the visit ----------------------------------------------------------------------------------

  /** What a node itself gets wrapped: a new expression, or the operand of a delete. */
  function Own(c: Cursor): seq<Edit> {
    match c.kind
    case NewExpr => [Edit(c.start, c.end, "__trace_allocated")]
    case DeleteExpr =>
      if c.children == [] then []
      else [Edit(c.children[|c.children| - 1].start, c.children[|c.children| - 1].end, "__trace_deleting")]
    case _ => []
  }

  /** The wraps in the order the visit records them. */
  function Visit(c: Cursor): seq<Edit> {
    if c.kind.Skipped? then [] else Own(c) + VisitAll(c.children)
  }

  function VisitAll(cs: seq<Cursor>): seq<Edit> {
    if cs == [] then [] else Visit(cs[0]) + VisitAll(cs[1..])
  }

  // ---- insertions ---------------------------------------------------------------------------------

  const CLOSE: Text := ")"

  function Opening(helper: Text): Text { helper + "(" }

  function Closers(edits: seq<Edit>, o: nat): (s: Text) {
    if edits == [] then "" else (if edits[0].end == o then CLOSE else "") + Closers(edits[1..], o)
  }

  function Openers(edits: seq<Edit>, o: nat): (s: Text) {
    if edits == [] then "" else (if edits[0].start == o then Opening(edits[0].helper) else "") + Openers(edits[1..], o)
  }

  /** What is inserted at offset o: closings go in front of what is there, openings behind. */
  function Inserted(edits: seq<Edit>, o: nat): Text { Closers(edits, o) + Openers(edits, o) }

  /** The rest of the text from offset o, with all insertions from there on. */
  function Spliced(raw: Text, edits: seq<Edit>, o: nat): Text
    requires o <= |raw|
    decreases |raw| - o
  {
    Inserted(edits, o) + if o == |raw| then "" else [raw[o]] + Spliced(raw, edits, o + 1)
  }

  // ---- recursive wrapping ---------------------------------------------------------------------------

  datatype Wrap = Wrap(start: nat, end: nat, helper: Text, inner: seq<Wrap>)

  /** Wraps in a stretch of text: in order, apart, none empty, and the same inside each. */
  predicate Inside(ws: seq<Wrap>, a: nat, b: nat)
    decreases ws
  {
    a <= b
    && (ws != [] ==>
          var w := ws[0];
          a <= w.start < w.end && Inside(w.inner, w.start, w.end) && w.end <= b && Inside(ws[1..], w.end, b))
  }

  function Render(raw: Text, ws: seq<Wrap>, a: nat, b: nat): Text
    requires Inside(ws, a, b) && b <= |raw|
    decreases ws
  {
    if ws == [] then raw[a..b]
    else
      var w := ws[0];
      raw[a..w.start] + (Opening(w.helper) + Render(raw, w.inner, w.start, w.end) + CLOSE) + Render(raw, ws[1..], w.end, b)
  }

  /** The wraps of a tree, outer before inner, left before right. */
  function Flatten(ws: seq<Wrap>): seq<Edit>
    decreases ws
  {
    if ws == [] then [] else [Edit(ws[0].start, ws[0].end, ws[0].helper)] + Flatten(ws[0].inner) + Flatten(ws[1..])
  }

  // ---- insertions at an offset -----------------------------------------------------------------------

  lemma {:induction false} ClosersAppend(x: seq<Edit>, y: seq<Edit>, o: nat)
    ensures Closers(x + y, o) == Closers(x, o) + Closers(y, o)
  {
    if x == [] { assert x + y == y; }
    else {
      assert (x + y)[1..] == x[1..] + y;
      ClosersAppend(x[1..], y, o);
      var first := if x[0].end == o then CLOSE else "";
      assert first + (Closers(x[1..], o) + Closers(y, o)) == (first + Closers(x[1..], o)) + Closers(y, o);
    }
  }

  lemma {:induction false} OpenersAppend(x: seq<Edit>, y: seq<Edit>, o: nat)
    ensures Openers(x + y, o) == Openers(x, o) + Openers(y, o)
  {
    hide Opening;
    if x == [] { assert x + y == y; }
    else {
      assert (x + y)[1..] == x[1..] + y;
      OpenersAppend(x[1..], y, o);
      var first := if x[0].start == o then Opening(x[0].helper) else "";
      assert first + (Openers(x[1..], o) + Openers(y, o)) == (first + Openers(x[1..], o)) + Openers(y, o);
    }
  }

  lemma {:induction false} NoClosers(edits: seq<Edit>, o: nat)
    requires forall e :: e in edits ==> e.end != o
    ensures Closers(edits, o) == ""
  {
    if edits != [] {
      assert edits[0] in edits;
      NoClosers(edits[1..], o);
    }
  }

  lemma {:induction false} NoOpeners(edits: seq<Edit>, o: nat)
    requires forall e :: e in edits ==> e.start != o
    ensures Openers(edits, o) == ""
  {
    if edits != [] {
      assert edits[0] in edits;
      NoOpeners(edits[1..], o);
    }
  }

  /** Closings are all alike, so one may stand before or behind the others. */
  lemma {:induction false} ClosersCommute(edits: seq<Edit>, o: nat)
    ensures CLOSE + Closers(edits, o) == Closers(edits, o) + CLOSE
  {
    if edits != [] {
      ClosersCommute(edits[1..], o);
      var first, rest := if edits[0].end == o then CLOSE else "", Closers(edits[1..], o);
      assert CLOSE + (first + rest) == first + (CLOSE + rest);
      assert (first + rest) + CLOSE == first + (rest + CLOSE);
    }
  }

  lemma {:induction false} FlatInside(ws: seq<Wrap>, a: nat, b: nat)
    requires Inside(ws, a, b)
    ensures forall e :: e in Flatten(ws) ==> a <= e.start < e.end <= b
    decreases ws
  {
    if ws != [] {
      FlatInside(ws[0].inner, ws[0].start, ws[0].end);
      FlatInside(ws[1..], ws[0].end, b);
      InsideGrows(ws, a, b);
    }
  }

  lemma {:induction false} InsideGrows(ws: seq<Wrap>, a: nat, b: nat)
    requires Inside(ws, a, b) && ws != []
    ensures ws[0].end <= b
  {}

  // ---- a stretch of the spliced text -------------------------------------------------------------------

  /** From just after the closings at a up to just before the openings at b. */
  function Stretch(raw: Text, edits: seq<Edit>, a: nat, b: nat): Text
    requires a < b <= |raw|
    decreases b - a, 0
  {
    Openers(edits, a) + [raw[a]] + Tail(raw, edits, a + 1, b)
  }

  /** The same with the closings at o. */
  function Tail(raw: Text, edits: seq<Edit>, o: nat, b: nat): Text
    requires o <= b <= |raw|
    decreases b - o, 1
  {
    Closers(edits, o) + if o == b then "" else Stretch(raw, edits, o, b)
  }

  lemma {:induction false} StretchSplit(raw: Text, edits: seq<Edit>, a: nat, c: nat, b: nat)
    requires a < c < b <= |raw|
    ensures Stretch(raw, edits, a, b) == Stretch(raw, edits, a, c) + Stretch(raw, edits, c, b)
    decreases c - a
  {
    hide Openers, Closers;
    if a + 1 < c { StretchSplit(raw, edits, a + 1, c, b); }
  }

  /** Edits that open and close elsewhere do not show. */
  lemma {:induction false} StretchOnly(raw: Text, x: seq<Edit>, y: seq<Edit>, z: seq<Edit>, a: nat, b: nat)
    requires a < b <= |raw|
    requires forall e :: e in x + z ==> (e.start < a || b <= e.start) && (e.end <= a || b < e.end)
    ensures Stretch(raw, x + y + z, a, b) == Stretch(raw, y, a, b)
    decreases b - a
  {
    SameAt(x, y, z, a, b, a);
    SameAt(x, y, z, a, b, a + 1);
    hide Openers, Closers;
    if a + 1 < b { StretchOnly(raw, x, y, z, a + 1, b); }
  }

  lemma {:induction false} SameAt(x: seq<Edit>, y: seq<Edit>, z: seq<Edit>, a: nat, b: nat, o: nat)
    requires a <= o <= b && forall e :: e in x + z ==> (e.start < a || b <= e.start) && (e.end <= a || b < e.end)
    ensures o < b ==> Openers(x + y + z, o) == Openers(y, o)
    ensures a < o ==> Closers(x + y + z, o) == Closers(y, o)
  {
    assert forall e :: e in x || e in z ==> e in x + z;
    OpenersAppend(x + y, z, o);
    OpenersAppend(x, y, o);
    ClosersAppend(x + y, z, o);
    ClosersAppend(x, y, o);
    if o < b {
      NoOpeners(x, o);
      NoOpeners(z, o);
    }
    if a < o {
      NoClosers(x, o);
      NoClosers(z, o);
    }
  }

  lemma {:induction false} StretchPlain(raw: Text, a: nat, b: nat)
    requires a < b <= |raw|
    ensures Stretch(raw, [], a, b) == raw[a..b]
    decreases b - a
  {
    if a + 1 < b { StretchPlain(raw, a + 1, b); }
  }

  lemma {:induction false} FirstEdit(w: Edit, rest: seq<Edit>, o: nat)
    ensures Openers([w] + rest, o) == if w.start == o then Opening(w.helper) + Openers(rest, o) else Openers(rest, o)
    ensures Closers([w] + rest, o) == if w.end == o then Closers(rest, o) + CLOSE else Closers(rest, o)
  {
    assert ([w] + rest)[1..] == rest;
    ClosersCommute(rest, o);
  }

  lemma {:induction false} CloseLast(c: Text, o: Text, r: Text, t: Text, close: Text)
    ensures c + (o + r + (t + close)) == (c + (o + r + t)) + close
  {
    assert o + r + (t + close) == (o + r + t) + close;
  }

  lemma {:induction false} OpenFirst(whole: Text, part: Text, front: Text, back: Text,
                                     open: Text, o: Text, r: Text, t: Text, close: Text)
    requires whole == front + r + back && front == open + o && back == t + close && part == o + r + t
    ensures whole == open + part + close
  {
    assert whole == (open + o) + r + (t + close);
    assert (open + o) + r + (t + close) == ((open + o) + r + t) + close;
    assert (open + o) + r + t == open + (o + r + t);
  }

  lemma {:induction false} EmptyEnd(c: Text, close: Text)
    ensures (c + close) + "" == (c + "") + close
  {
    assert c + "" == c;
  }

  lemma {:induction false} WrappedTail(raw: Text, w: Edit, inner: seq<Edit>, o: nat, b: nat)
    requires w.start < o <= b <= |raw| && w.end == b
    ensures Tail(raw, [w] + inner, o, b) == Tail(raw, inner, o, b) + CLOSE
    decreases b - o
  {
    hide CLOSE, Opening, Openers, Closers;
    FirstEdit(w, inner, o);
    if o < b {
      WrappedTail(raw, w, inner, o + 1, b);
      assert Openers([w] + inner, o) == Openers(inner, o) && Closers([w] + inner, o) == Closers(inner, o);
      CloseLast(Closers(inner, o), Openers(inner, o), [raw[o]], Tail(raw, inner, o + 1, b), CLOSE);
    } else {
      EmptyEnd(Closers(inner, o), CLOSE);
    }
  }

  lemma {:induction false} StretchIs(raw: Text, edits: seq<Edit>, a: nat, b: nat)
    requires a < b <= |raw|
    ensures Stretch(raw, edits, a, b) == Openers(edits, a) + [raw[a]] + Tail(raw, edits, a + 1, b)
  {
    hide Openers, Tail;
  }

  /** One more wrap around the whole stretch. */
  lemma {:induction false} StretchWrapped(raw: Text, w: Edit, inner: seq<Edit>, a: nat, b: nat)
    requires a < b <= |raw| && w.start == a && w.end == b
    ensures Stretch(raw, [w] + inner, a, b) == Opening(w.helper) + Stretch(raw, inner, a, b) + CLOSE
  {
    hide CLOSE, Opening, Openers, Closers, Tail, Stretch;
    FirstEdit(w, inner, a);
    WrappedTail(raw, w, inner, a + 1, b);
    StretchIs(raw, [w] + inner, a, b);
    StretchIs(raw, inner, a, b);
    OpenFirst(Stretch(raw, [w] + inner, a, b), Stretch(raw, inner, a, b), Openers([w] + inner, a), Tail(raw, [w] + inner, a + 1, b),
              Opening(w.helper), Openers(inner, a), [raw[a]], Tail(raw, inner, a + 1, b), CLOSE);
  }

  // ---- insertions render the tree ---------------------------------------------------------------------

  /** The spliced stretch is the stretch with every wrap written around its text. */
  lemma {:induction false} StretchRenders(raw: Text, ws: seq<Wrap>, a: nat, b: nat)
    requires Inside(ws, a, b) && a < b <= |raw|
    ensures Stretch(raw, Flatten(ws), a, b) == Render(raw, ws, a, b)
    decreases ws
  {
    if ws == [] {
      StretchPlain(raw, a, b);
    } else {
      var w := ws[0];
      var edit, inner, rest := Edit(w.start, w.end, w.helper), Flatten(w.inner), Flatten(ws[1..]);
      var all := [edit] + inner + rest;
      FlatInside(w.inner, w.start, w.end);
      FlatInside(ws[1..], w.end, b);
      StretchRenders(raw, w.inner, w.start, w.end);
      if w.end < b { StretchRenders(raw, ws[1..], w.end, b); } else { assert ws[1..] == [] && raw[b..b] == ""; }
      var mid := Opening(w.helper) + Render(raw, w.inner, w.start, w.end) + CLOSE;
      assert Render(raw, ws, a, b) == raw[a..w.start] + mid + Render(raw, ws[1..], w.end, b);
      assert Flatten(ws) == all;
      hide CLOSE, Opening, Flatten, Render, Stretch, Inside;
      ThreeParts(raw, edit, inner, rest, a, b);
    }
  }

  /** Text before the first wrap, the wrap, and what follows it. */
  lemma {:induction false} ThreeParts(raw: Text, edit: Edit, inner: seq<Edit>, rest: seq<Edit>, a: nat, b: nat)
    requires a <= edit.start < edit.end <= b <= |raw|
    requires forall e :: e in inner ==> edit.start <= e.start < e.end <= edit.end
    requires forall e :: e in rest ==> edit.end <= e.start < e.end
    ensures Stretch(raw, [edit] + inner + rest, a, b)
            == raw[a..edit.start] + (Opening(edit.helper) + Stretch(raw, inner, edit.start, edit.end) + CLOSE)
               + (if edit.end < b then Stretch(raw, rest, edit.end, b) else "")
  {
    var all := [edit] + inner + rest;
    hide Stretch;
    Before(raw, all, a, edit.start);
    Middle(raw, edit, inner, rest, b);
    if edit.end < b {
      After(raw, [edit] + inner, rest, edit.end, b);
      StretchSplit(raw, all, edit.start, edit.end, b);
    }
    if a < edit.start {
      StretchSplit(raw, all, a, edit.start, b);
    } else {
      assert raw[a..edit.start] == "";
    }
  }

  lemma {:induction false} Before(raw: Text, all: seq<Edit>, a: nat, c: nat)
    requires a <= c <= |raw| && forall e :: e in all ==> c <= e.start < e.end
    ensures a < c ==> Stretch(raw, all, a, c) == raw[a..c]
  {
    if a < c {
      assert all + [] + [] == all;
      StretchOnly(raw, all, [], [], a, c);
      StretchPlain(raw, a, c);
    }
  }

  lemma {:induction false} Middle(raw: Text, edit: Edit, inner: seq<Edit>, rest: seq<Edit>, b: nat)
    requires edit.start < edit.end <= b <= |raw| && forall e :: e in rest ==> edit.end <= e.start < e.end
    ensures Stretch(raw, [edit] + inner + rest, edit.start, edit.end)
            == Opening(edit.helper) + Stretch(raw, inner, edit.start, edit.end) + CLOSE
  {
    assert [] + ([edit] + inner) + rest == [edit] + inner + rest && [] + rest == rest;
    StretchOnly(raw, [], [edit] + inner, rest, edit.start, edit.end);
    StretchWrapped(raw, edit, inner, edit.start, edit.end);
  }

  lemma {:induction false} After(raw: Text, before: seq<Edit>, rest: seq<Edit>, c: nat, b: nat)
    requires c < b <= |raw| && forall e :: e in before ==> e.start < e.end <= c
    ensures Stretch(raw, before + rest, c, b) == Stretch(raw, rest, c, b)
  {
    assert before + rest + [] == before + rest && before + [] == before;
    StretchOnly(raw, before, rest, [], c, b);
  }

  lemma {:induction false} SplicedIsStretch(raw: Text, edits: seq<Edit>, a: nat)
    requires a < |raw| && forall e :: e in edits ==> e.start < e.end <= |raw|
    ensures Spliced(raw, edits, a) == Closers(edits, a) + Stretch(raw, edits, a, |raw|)
    decreases |raw| - a
  {
    hide Openers, Closers;
    if a + 1 < |raw| {
      SplicedIsStretch(raw, edits, a + 1);
    } else {
      NoOpeners(edits, |raw|);
      assert Spliced(raw, edits, |raw|) == Closers(edits, |raw|);
    }
  }

  /** Splicing the collected insertions gives the recursively wrapped text. */
  lemma {:induction false} SplicingWraps(raw: Text, ws: seq<Wrap>)
    requires Inside(ws, 0, |raw|)
    ensures Spliced(raw, Flatten(ws), 0) == Render(raw, ws, 0, |raw|)
  {
    FlatInside(ws, 0, |raw|);
    if raw != [] {
      SplicedIsStretch(raw, Flatten(ws), 0);
      NoClosers(Flatten(ws), 0);
      StretchRenders(raw, ws, 0, |raw|);
    }
  }

  // ---- syntax trees -----------------------------------------------------------------------------------

  /** Children that are visited follow one another inside their parent. */
  predicate InOrder(cs: seq<Cursor>, a: nat, b: nat)
    decreases cs
  {
    if cs == [] then a <= b
    else if cs[0].kind.Skipped? then InOrder(cs[1..], a, b)
    else a <= cs[0].start && Laminar(cs[0]) && InOrder(cs[1..], cs[0].end, b)
  }

  /** All extents nest, and what gets wrapped is not empty: enough for the wraps to nest, and more
      than is needed. */
  predicate Laminar(c: Cursor) {
    && c.start <= c.end && InOrder(c.children, c.start, c.end)
    && (c.kind.NewExpr? ==> c.start < c.end)
    && (c.kind.DeleteExpr? && c.children != [] ==>
          var operand := c.children[|c.children| - 1];
          !operand.kind.Skipped? && operand.start < operand.end)
  }

  /** The wraps a tree asks for: each new expression, and the operand of each delete. */
  function Wraps(c: Cursor): seq<Wrap>
    decreases c, 0
  {
    match c.kind
    case Skipped => []
    case NewExpr => [Wrap(c.start, c.end, "__trace_allocated", WrapsAll(c.children))]
    case DeleteExpr =>
      if c.children == [] then []
      else
        var operand := c.children[|c.children| - 1];
        WrapsAll(c.children[..|c.children| - 1]) + [Wrap(operand.start, operand.end, "__trace_deleting", Wraps(operand))]
    case OtherKind => WrapsAll(c.children)
  }

  function WrapsAll(cs: seq<Cursor>): seq<Wrap>
    decreases cs
  {
    if cs == [] then [] else Wraps(cs[0]) + WrapsAll(cs[1..])
  }

  lemma {:induction false} InsideWider(ws: seq<Wrap>, a: nat, b: nat, a': nat, b': nat)
    requires Inside(ws, a, b) && a' <= a && b <= b'
    ensures Inside(ws, a', b')
    decreases ws
  {
    if ws != [] { InsideWider(ws[1..], ws[0].end, b, ws[0].end, b'); }
  }

  lemma {:induction false} InsideAppend(x: seq<Wrap>, y: seq<Wrap>, a: nat, c: nat, b: nat)
    requires Inside(x, a, c) && Inside(y, c, b)
    ensures Inside(x + y, a, b)
    decreases x
  {
    if x == [] {
      assert x + y == y;
      InsideWider(y, c, b, a, b);
    } else {
      assert (x + y)[1..] == x[1..] + y;
      InsideAppend(x[1..], y, x[0].end, c, b);
      InsideBounds(x[1..], x[0].end, c);
      InsideBounds(y, c, b);
    }
  }

  lemma {:induction false} InsideBounds(ws: seq<Wrap>, a: nat, b: nat)
    requires Inside(ws, a, b)
    ensures a <= b
  {}

  /** What is inside together is inside apart, with a point between. */
  lemma {:induction false} InsideSplit(x: seq<Wrap>, y: seq<Wrap>, a: nat, b: nat) returns (c: nat)
    requires Inside(x + y, a, b)
    ensures Inside(x, a, c) && Inside(y, c, b)
    decreases x
  {
    if x == [] {
      assert x + y == y;
      c := a;
    } else {
      assert (x + y)[1..] == x[1..] + y && (x + y)[0] == x[0];
      c := InsideSplit(x[1..], y, x[0].end, b);
      InsideBounds(x[1..], x[0].end, c);
    }
  }

  lemma {:induction false} FlattenAppend(x: seq<Wrap>, y: seq<Wrap>)
    ensures Flatten(x + y) == Flatten(x) + Flatten(y)
    decreases x
  {
    if x == [] { assert x + y == y; }
    else {
      assert (x + y)[1..] == x[1..] + y;
      FlattenAppend(x[1..], y);
    }
  }

  lemma {:induction false} OrderSplit(cs: seq<Cursor>, a: nat, b: nat)
    requires InOrder(cs, a, b) && cs != [] && !cs[|cs| - 1].kind.Skipped?
    ensures var operand := cs[|cs| - 1];
            Laminar(operand) && InOrder(cs[..|cs| - 1], a, operand.start) && operand.end <= b
    decreases |cs|
  {
    var front := cs[..|cs| - 1];
    if |cs| == 1 {
      assert front == [] && InOrder(cs[1..], cs[0].end, b);
    } else {
      assert cs[1..][..|cs| - 2] == front[1..] && front[0] == cs[0] && cs[1..][|cs| - 2] == cs[|cs| - 1];
      OrderSplit(cs[1..], if cs[0].kind.Skipped? then a else cs[0].end, b);
    }
  }

  lemma {:induction false} WrapsInside(c: Cursor, a: nat, b: nat)
    requires Laminar(c) && a <= c.start && c.end <= b
    ensures Inside(Wraps(c), a, b)
    decreases c, 0
  {
    if c.kind.Skipped? || (c.kind.DeleteExpr? && c.children == []) {
    } else if c.kind.DeleteExpr? {
      var operand := c.children[|c.children| - 1];
      OrderSplit(c.children, c.start, c.end);
      WrapsAllInside(c.children[..|c.children| - 1], c.start, operand.start);
      WrapsInside(operand, operand.start, operand.end);
      InsideWider(WrapsAll(c.children[..|c.children| - 1]), c.start, operand.start, a, operand.start);
      InsideAppend(WrapsAll(c.children[..|c.children| - 1]),
                   [Wrap(operand.start, operand.end, "__trace_deleting", Wraps(operand))], a, operand.start, b);
    } else {
      WrapsAllInside(c.children, c.start, c.end);
      if c.kind.OtherKind? { InsideWider(WrapsAll(c.children), c.start, c.end, a, b); }
    }
  }

  lemma {:induction false} WrapsAllInside(cs: seq<Cursor>, a: nat, b: nat)
    requires InOrder(cs, a, b)
    ensures Inside(WrapsAll(cs), a, b)
    decreases cs
  {
    if cs != [] {
      var next := if cs[0].kind.Skipped? then a else cs[0].end;
      if !cs[0].kind.Skipped? { WrapsInside(cs[0], a, next); }
      WrapsAllInside(cs[1..], next, b);
      InsideAppend(Wraps(cs[0]), WrapsAll(cs[1..]), a, next, b);
    }
  }

  /** The same text is inserted at every offset. */
  ghost predicate SameInsertions(x: seq<Edit>, y: seq<Edit>) {
    forall o :: Closers(x, o) == Closers(y, o) && Openers(x, o) == Openers(y, o)
  }

  lemma {:induction false} SameAppend(x: seq<Edit>, y: seq<Edit>, x': seq<Edit>, y': seq<Edit>)
    requires SameInsertions(x, y) && SameInsertions(x', y')
    ensures SameInsertions(x + x', y + y')
  {
    forall o ensures Closers(x + x', o) == Closers(y + y', o) && Openers(x + x', o) == Openers(y + y', o) {
      ClosersAppend(x, x', o);
      ClosersAppend(y, y', o);
      OpenersAppend(x, x', o);
      OpenersAppend(y, y', o);
    }
  }

  /** Recording a delete's operand before its earlier siblings inserts the same. */
  lemma {:induction false} EarlyRecord(e: Edit, before: seq<Edit>)
    requires forall x :: x in before ==> x.start < e.start
    ensures SameInsertions([e] + before, before + [e])
  {
    forall o ensures Closers([e] + before, o) == Closers(before + [e], o) && Openers([e] + before, o) == Openers(before + [e], o) {
      FirstEdit(e, before, o);
      FirstEdit(e, [], o);
      assert [e] + [] == [e];
      ClosersAppend(before, [e], o);
      OpenersAppend(before, [e], o);
      if o == e.start { NoOpeners(before, o); }
    }
  }

  lemma {:induction false} FlattenOne(w: Wrap)
    ensures Flatten([w]) == [Edit(w.start, w.end, w.helper)] + Flatten(w.inner)
  {
    assert [w][1..] == [];
    assert Flatten([w]) == [Edit(w.start, w.end, w.helper)] + Flatten(w.inner) + [];
  }

  /** The visit records what the tree of wraps asks for, if the wraps nest. */
  lemma {:induction false} VisitRecordsWraps(c: Cursor, a: nat, b: nat)
    requires Inside(Wraps(c), a, b)
    ensures SameInsertions(Visit(c), Flatten(Wraps(c)))
    decreases c, 0
  {
    if c.kind.Skipped? || (c.kind.DeleteExpr? && c.children == []) {
      if !c.kind.Skipped? { NothingRecorded(c); }
    } else if c.kind.DeleteExpr? {
      DeleteRecords(c, a, b);
    } else if c.kind.NewExpr? {
      VisitAllRecords(c.children, c.start, c.end);
      var e := [Edit(c.start, c.end, "__trace_allocated")];
      SameAppend(e, e, VisitAll(c.children), Flatten(WrapsAll(c.children)));
      FlattenOne(Wraps(c)[0]);
      assert Wraps(c) == [Wraps(c)[0]];
    } else {
      VisitAllRecords(c.children, a, b);
      assert [] + VisitAll(c.children) == VisitAll(c.children);
    }
  }

  lemma {:induction false} NothingRecorded(c: Cursor)
    requires c.kind.DeleteExpr? && c.children == []
    ensures Visit(c) == []
  {}

  lemma {:induction false} VisitAllRecords(cs: seq<Cursor>, a: nat, b: nat)
    requires Inside(WrapsAll(cs), a, b)
    ensures SameInsertions(VisitAll(cs), Flatten(WrapsAll(cs)))
    decreases cs
  {
    if cs != [] {
      var m := InsideSplit(Wraps(cs[0]), WrapsAll(cs[1..]), a, b);
      VisitRecordsWraps(cs[0], a, m);
      VisitAllRecords(cs[1..], m, b);
      SameAppend(Visit(cs[0]), Flatten(Wraps(cs[0])), VisitAll(cs[1..]), Flatten(WrapsAll(cs[1..])));
      FlattenAppend(Wraps(cs[0]), WrapsAll(cs[1..]));
    }
  }

  lemma {:induction false} VisitAllAppend(x: seq<Cursor>, c: Cursor)
    ensures VisitAll(x + [c]) == VisitAll(x) + Visit(c)
    decreases |x|
  {
    if x == [] {
      assert x + [c] == [c] && [c][1..] == [];
      assert Visit(c) + [] == Visit(c);
    } else {
      assert (x + [c])[1..] == x[1..] + [c];
      VisitAllAppend(x[1..], c);
    }
  }

  lemma {:induction false} DeleteCombines(e: Edit, front: seq<Edit>, last: seq<Edit>, before: seq<Edit>, within: seq<Edit>)
    requires SameInsertions(front, before) && SameInsertions(last, within) && forall x :: x in before ==> x.start < e.start
    ensures SameInsertions([e] + (front + last), before + ([e] + within))
  {
    assert SameInsertions([e], [e]);
    hide SameInsertions;
    SameAppend([e], [e], front, before);
    EarlyRecord(e, before);
    SameChain([e] + front, [e] + before, before + [e]);
    SameAppend([e] + front, before + [e], last, within);
    assert ([e] + front) + last == [e] + (front + last) && before + ([e] + within) == (before + [e]) + within;
  }

  lemma {:induction false} DeleteRecords(c: Cursor, a: nat, b: nat)
    requires c.kind.DeleteExpr? && c.children != [] && Inside(Wraps(c), a, b)
    ensures SameInsertions(Visit(c), Flatten(Wraps(c)))
    decreases c, 0, 0
  {
    var front, operand := c.children[..|c.children| - 1], c.children[|c.children| - 1];
    var w := Wrap(operand.start, operand.end, "__trace_deleting", Wraps(operand));
    var e := Edit(w.start, w.end, w.helper);
    assert front + [operand] == c.children;
    assert Visit(c) == [e] + VisitAll(c.children) && Wraps(c) == WrapsAll(front) + [w];
    var m := InsideSplit(WrapsAll(front), [w], a, b);
    assert [w][0] == w && m <= w.start && Inside(w.inner, w.start, w.end);
    hide Visit, VisitAll, Wraps, WrapsAll, Flatten, Inside, SameInsertions;
    VisitAllRecords(front, a, m);
    VisitRecordsWraps(operand, w.start, w.end);
    FlatInside(WrapsAll(front), a, m);
    VisitAllAppend(front, operand);
    DeleteCombines(e, VisitAll(front), Visit(operand), Flatten(WrapsAll(front)), Flatten(Wraps(operand)));
    FlattenAppend(WrapsAll(front), [w]);
    FlattenOne(w);
  }

  lemma {:induction false} SameChain(x: seq<Edit>, y: seq<Edit>, z: seq<Edit>)
    requires SameInsertions(x, y) && SameInsertions(y, z)
    ensures SameInsertions(x, z)
  {}

  lemma {:induction false} SameSpliced(raw: Text, x: seq<Edit>, y: seq<Edit>, o: nat)
    requires o <= |raw| && SameInsertions(x, y)
    ensures Spliced(raw, x, o) == Spliced(raw, y, o)
    decreases |raw| - o
  {
    hide Openers, Closers;
    if o < |raw| { SameSpliced(raw, x, y, o + 1); }
  }

  /** For every tree whose wraps nest in the text, whatever the extents of its other nodes: visiting
      it and splicing gives the text in which every wrap is written around the wrapped text of its
      own extent. */
  lemma {:induction false} TrackingWraps(raw: Text, c: Cursor)
    requires Inside(Wraps(c), 0, |raw|)
    ensures Spliced(raw, Visit(c), 0) == Render(raw, Wraps(c), 0, |raw|)
  {
    hide Visit, Spliced, Render, Flatten, Inside, SameInsertions;
    VisitRecordsWraps(c, 0, |raw|);
    SameSpliced(raw, Visit(c), Flatten(Wraps(c)), 0);
    SplicingWraps(raw, Wraps(c));
  }
}
