/** Printed records seen as pieces: plain text, or fields in brackets behind a tag. Relates what the
    bracket scan takes out of a piece, and where it can be split, to the fields printed in it. */
module SlowLogLayout {
  import opened Basics
  import opened SlowLogRecord
  import opened SlowLogScan
  import opened SlowLogSplit

  /** A field printed in brackets after a tag; one field is printed with " hits" behind it. */
  datatype Slot = Slot(tag: string, field: string, hits: bool)
  datatype Piece = Plain(text: string) | Slotted(slots: seq<Slot>)

  function Body(s: Slot): string {
    if s.hits then s.field + " hits" else s.field
  }

  function RenderSlot(s: Slot): string {
    Bracket(s.tag, Body(s))
  }

  function RenderSlots(slots: seq<Slot>): string {
    if slots == [] then "" else RenderSlot(slots[0]) + RenderSlots(slots[1..])
  }

  function Render(p: Piece): string {
    match p
    case Plain(text) => text
    case Slotted(slots) => RenderSlots(slots)
  }

  predicate Free(s: string, c: char) {
    forall k | 0 <= k < |s| :: s[k] != c
  }

  /** The scan gives the field back. */
  predicate GoodSlot(s: Slot) {
    Free(s.field, ']') && (s.hits || !EndsHits(s.field))
  }

  lemma UnhitsBody(s: Slot)
    ensures Unhits(Body(s)) == s.field <==> s.hits || !EndsHits(s.field)
  {
    if s.hits {
      var b := Body(s);
      assert b[|b| - 5..] == " hits" && b[..|b| - 5] == s.field;
    }
  }

  /** The characters of a printed slot inside a longer string. */
  lemma SlotChars(element: string, before: string, s: Slot, after: string)
    requires element == before + RenderSlot(s) + after
    ensures var open := |before| + |s.tag|;
            var close := open + 1 + |Body(s)|;
            && |before + RenderSlot(s)| == close + 1 <= |element|
            && element[|before|..open] == s.tag && element[open] == '['
            && element[open + 1..close] == Body(s) && element[close] == ']'
  {
    assert element == before + s.tag + "[" + Body(s) + "]" + after;
  }

  /** `i` is the first position of `c` from `from` on. */
  predicate IsFirst(s: string, c: char, from: nat, i: nat) {
    from <= i < |s| && s[i] == c && forall k | from <= k < i :: s[k] != c
  }

  lemma FindIsFirst(s: string, c: char, from: nat, i: nat)
    requires IsFirst(s, c, from, i)
    ensures Find(s, c, from) == i
  {
  }

  lemma FreeSlice(s: string, c: char, lo: nat, hi: nat)
    requires lo <= hi <= |s| && Free(s[lo..hi], c)
    ensures forall k | lo <= k < hi :: s[k] != c
  {
    forall k | lo <= k < hi ensures s[k] != c {
      assert s[k] == s[lo..hi][k - lo];
    }
  }

  lemma BodyFree(s: Slot)
    ensures Free(Body(s), ']') <==> Free(s.field, ']')
  {
    if s.hits {
      assert forall k | 0 <= k < |s.field| :: Body(s)[k] == s.field[k];
      assert forall k | |s.field| <= k < |Body(s)| :: Body(s)[k] == " hits"[k - |s.field|];
    }
  }

  /** The scan, standing before a printed slot, opens at its bracket. */
  lemma ScanOpens(element: string, before: string, s: Slot, after: string)
    requires element == before + RenderSlot(s) + after && Free(s.tag, '[')
    ensures Find(element, '[', |before|) == |before| + |s.tag|
  {
    SlotChars(element, before, s, after);
    FreeSlice(element, '[', |before|, |before| + |s.tag|);
    FindIsFirst(element, '[', |before|, |before| + |s.tag|);
  }

  /** It closes at the slot's own bracket when the field has none, and inside the field otherwise. */
  lemma ScanCloses(element: string, before: string, s: Slot, after: string)
    requires element == before + RenderSlot(s) + after
    ensures var open := |before| + |s.tag|;
            var end := Find(element, ']', open);
            if Free(s.field, ']') then end == open + 1 + |Body(s)| else open < end <= open + |s.field|
  {
    var open := |before| + |s.tag|;
    var close := open + 1 + |Body(s)|;
    SlotChars(element, before, s, after);
    BodyFree(s);
    if Free(s.field, ']') {
      FreeSlice(element, ']', open + 1, close);
      FindIsFirst(element, ']', open, close);
    } else {
      var k :| 0 <= k < |s.field| && s.field[k] == ']';
      assert element[open + 1 + k] == element[open + 1..close][k] == Body(s)[k] == ']';
    }
  }

  /** One text, then the rest of the scan. */
  lemma {:induction false} TextsUnfold(element: string, from: nat, open: nat, end: nat)
    requires Find(element, '[', from) == open && Find(element, ']', open) == end
    ensures open < end < |element|
    ensures TextsFrom(element, from) == [element[open + 1..end]] + TextsFrom(element, end + 1)
  {
    var a := Find(element, '[', end);
    assert a == Find(element, '[', end + 1);
  }

  /** Standing at `from`, the scan takes the printed body of `s` and goes on at `next`, or takes a text
      shorter than the field when the field closes the bracket early. */
  predicate Spans(element: string, from: nat, s: Slot, next: nat) {
    var open := Find(element, '[', from);
    open >= 0 && SpansAt(element, open, Find(element, ']', open), s, next)
  }

  predicate SpansAt(element: string, open: nat, end: int, s: Slot, next: nat) {
    && open < end < |element|
    && Fits(element[open + 1..end], s)
    && (Free(s.field, ']') ==> next == end + 1)
  }

  predicate Fits(text: string, s: Slot) {
    if Free(s.field, ']') then text == Body(s) else |text| < |s.field|
  }

  lemma {:induction false} SlotsSpan(element: string, before: string, slots: seq<Slot>)
    requires slots != [] && element == before + RenderSlots(slots) && Free(slots[0].tag, '[')
    ensures Spans(element, |before|, slots[0], |before + RenderSlot(slots[0])|)
  {
    var s, after := slots[0], RenderSlots(slots[1..]);
    assert element == before + RenderSlot(s) + after;
    ScanOpens(element, before, s, after);
    ScanCloses(element, before, s, after);
    SlotChars(element, before, s, after);
  }

  /** `texts` holds the printed bodies in order, up to the first field that closes its bracket early;
      there it holds something shorter than the field. */
  predicate TextsOf(texts: seq<string>, slots: seq<Slot>)
    decreases |slots|
  {
    if slots == [] then texts == []
    else texts != [] && Fits(texts[0], slots[0]) && (Free(slots[0].field, ']') ==> TextsOf(texts[1..], slots[1..]))
  }

  predicate PlainTags(slots: seq<Slot>) {
    slots == [] || (Free(slots[0].tag, '[') && PlainTags(slots[1..]))
  }

  lemma {:induction false} TextsOfCons(text: string, texts: seq<string>, later: seq<string>, slots: seq<Slot>)
    requires slots != [] && Fits(text, slots[0]) && TextsOf(later, slots[1..])
    requires Free(slots[0].field, ']') ==> texts == later
    ensures TextsOf([text] + texts, slots)
  {
    assert ([text] + texts)[1..] == texts;
  }

  lemma {:induction false} SpanTextsAt(element: string, from: nat, open: nat, end: nat, next: nat, slots: seq<Slot>)
    requires slots != [] && Find(element, '[', from) == open && Find(element, ']', open) == end
    requires SpansAt(element, open, end, slots[0], next) && TextsOf(TextsFrom(element, next), slots[1..])
    ensures TextsOf(TextsFrom(element, from), slots)
  {
    TextsUnfold(element, from, open, end);
    TextsOfCons(element[open + 1..end], TextsFrom(element, end + 1), TextsFrom(element, next), slots);
  }

  lemma {:induction false} SpanTexts(element: string, from: nat, next: nat, slots: seq<Slot>)
    requires slots != [] && Spans(element, from, slots[0], next) && TextsOf(TextsFrom(element, next), slots[1..])
    ensures TextsOf(TextsFrom(element, from), slots)
  {
    var open := Find(element, '[', from);
    SpanTextsAt(element, from, open, Find(element, ']', open), next, slots);
  }

  lemma {:induction false} PrintedSlotsTexts(element: string, before: string, slots: seq<Slot>)
    requires element == before + RenderSlots(slots) && PlainTags(slots)
    ensures TextsOf(TextsFrom(element, |before|), slots)
    decreases |slots|
  {
    if slots == [] {
      assert Find(element, '[', |before|) == -1;
    } else {
      var next := before + RenderSlot(slots[0]);
      assert element == next + RenderSlots(slots[1..]);
      PrintedSlotsTexts(element, next, slots[1..]);
      SlotsSpan(element, before, slots);
      SpanTexts(element, |before|, |next|, slots);
    }
  }

  // ----- Comparing the scanned values with the fields -----

  /** A field and whether the scan gives it back. */
  datatype Mark = Mark(field: string, good: bool)

  function MarkedFields(marks: seq<Mark>): seq<string> {
    seq(|marks|, k requires 0 <= k < |marks| => marks[k].field)
  }

  predicate AllGood(marks: seq<Mark>) {
    forall k | 0 <= k < |marks| :: marks[k].good
  }

  /** `b` holds the marked fields in order up to the first bad one, and another value there. */
  predicate TakesAs(b: seq<string>, marks: seq<Mark>)
    decreases |marks|
  {
    if marks == [] then b == []
    else b != [] && if marks[0].good then b[0] == marks[0].field && TakesAs(b[1..], marks[1..])
                    else b[0] != marks[0].field
  }

  lemma {:induction false} TakesAsExactly(b: seq<string>, marks: seq<Mark>)
    requires TakesAs(b, marks)
    ensures b == MarkedFields(marks) <==> AllGood(marks)
    decreases |marks|
  {
    if marks != [] {
      assert b == [b[0]] + b[1..];
      if marks[0].good {
        TakesAsExactly(b[1..], marks[1..]);
        assert AllGood(marks) <==> AllGood(marks[1..]) by {
          assert forall k | 0 < k < |marks| :: marks[k] == marks[1..][k - 1];
        }
        assert MarkedFields(marks)[1..] == MarkedFields(marks[1..]);
      }
    }
  }

  lemma {:induction false} TakesAppend(b: seq<string>, marks: seq<Mark>, c: seq<string>, more: seq<Mark>)
    requires TakesAs(b, marks) && TakesAs(c, more)
    ensures TakesAs(b + c, marks + more)
    decreases |marks|
  {
    if marks == [] {
      assert b + c == c && marks + more == more;
    } else {
      assert (marks + more)[1..] == marks[1..] + more;
      assert (b + c)[1..] == b[1..] + c;
      if marks[0].good {
        TakesAppend(b[1..], marks[1..], c, more);
      }
    }
  }

  function SlotMarks(slots: seq<Slot>): seq<Mark> {
    if slots == [] then [] else [Mark(slots[0].field, GoodSlot(slots[0]))] + SlotMarks(slots[1..])
  }

  /** Dropping a final " hits" from the texts gives the good fields back and no others. */
  lemma {:induction false} TextsTakeAs(texts: seq<string>, slots: seq<Slot>)
    requires TextsOf(texts, slots)
    ensures TakesAs(UnhitsAll(texts), SlotMarks(slots))
    decreases |slots|
  {
    if slots != [] {
      UnhitsBody(slots[0]);
      assert UnhitsAll(texts)[1..] == UnhitsAll(texts[1..]);
      assert SlotMarks(slots)[1..] == SlotMarks(slots[1..]);
      if GoodSlot(slots[0]) {
        TextsTakeAs(texts[1..], slots[1..]);
      }
    }
  }

  function PieceMarks(p: Piece): seq<Mark> {
    match p
    case Plain(text) => [Mark(text, Free(text, '['))]
    case Slotted(slots) => SlotMarks(slots)
  }

  function MarkLists(pieces: seq<Piece>): seq<seq<Mark>> {
    seq(|pieces|, k requires 0 <= k < |pieces| => PieceMarks(pieces[k]))
  }

  function AllMarks(pieces: seq<Piece>): seq<Mark> {
    Flatten(MarkLists(pieces))
  }

  function AllValues(elements: seq<string>): seq<string> {
    if elements == [] then [] else Values(elements[0]) + AllValues(elements[1..])
  }

  function RenderAll(pieces: seq<Piece>): seq<string> {
    seq(|pieces|, k requires 0 <= k < |pieces| => Render(pieces[k]))
  }

  predicate WellLaid(p: Piece) {
    p.Slotted? ==> p.slots != [] && PlainTags(p.slots)
  }

  lemma {:induction false} FirstTextShorter(text: string)
    requires Find(text, '[', 0) >= 0
    ensures TextsFrom(text, 0) != [] && |TextsFrom(text, 0)[0]| < |text|
  {
    var i := Find(text, '[', 0);
    assert |TextAt(text, i)| < |text|;
  }

  lemma {:induction false} PlainTakes(text: string)
    ensures TakesAs(Values(text), [Mark(text, Free(text, '['))])
  {
    var values := Values(text);
    if Find(text, '[', 0) >= 0 {
      FirstTextShorter(text);
      assert |values[0]| <= |TextsFrom(text, 0)[0]|;
    } else {
      assert values[1..] == [] && [Mark(text, true)][1..] == [];
    }
  }

  lemma {:induction false} PieceTakes(p: Piece)
    requires WellLaid(p)
    ensures TakesAs(Values(Render(p)), PieceMarks(p))
  {
    match p
    case Plain(text) => PlainTakes(text);
    case Slotted(slots) =>
      var element := RenderSlots(slots);
      assert element == "" + element;
      PrintedSlotsTexts(element, "", slots);
      TextsTakeAs(TextsFrom(element, 0), slots);
      assert Find(element, '[', 0) != -1;
  }

  lemma AllValuesCons(pieces: seq<Piece>)
    requires pieces != []
    ensures AllValues(RenderAll(pieces)) == Values(Render(pieces[0])) + AllValues(RenderAll(pieces[1..]))
  {
    assert RenderAll(pieces)[1..] == RenderAll(pieces[1..]);
  }

  lemma AllMarksCons(pieces: seq<Piece>)
    requires pieces != []
    ensures AllMarks(pieces) == PieceMarks(pieces[0]) + AllMarks(pieces[1..])
  {
    assert MarkLists(pieces)[1..] == MarkLists(pieces[1..]);
  }

  lemma {:induction false} PiecesTake(pieces: seq<Piece>)
    requires forall k | 0 <= k < |pieces| :: WellLaid(pieces[k])
    ensures TakesAs(AllValues(RenderAll(pieces)), AllMarks(pieces))
    decreases |pieces|
  {
    if pieces != [] {
      var rest := pieces[1..];
      PieceTakes(pieces[0]);
      PiecesTake(rest);
      AllValuesCons(pieces);
      AllMarksCons(pieces);
      TakesAppend(Values(Render(pieces[0])), PieceMarks(pieces[0]), AllValues(RenderAll(rest)), AllMarks(rest));
    }
  }

  // ----- Separators inside a printed record -----

  predicate EndsComma(s: string) {
    s != "" && s[|s| - 1] == ','
  }

  ghost predicate SepFreeSlot(s: Slot) {
    !HasSep(s.field) && (s.hits ==> !EndsComma(s.field))
  }

  lemma BracketSep(tag: string, text: string)
    requires !HasSep(tag)
    ensures HasSep(Bracket(tag, text)) <==> HasSep(text)
  {
    HasSepConcat(tag, "[");
    HasSepConcat(tag + "[", text);
    HasSepConcat(tag + "[" + text, "]");
  }

  lemma BodySep(s: Slot)
    ensures HasSep(Body(s)) <==> !SepFreeSlot(s)
  {
    if s.hits {
      HasSepConcat(s.field, " hits");
      assert !HasSep(" hits");
    }
  }

  ghost predicate SepFreePiece(p: Piece) {
    match p
    case Plain(text) => !HasSep(text)
    case Slotted(slots) => forall k | 0 <= k < |slots| :: SepFreeSlot(slots[k])
  }

  ghost predicate SepFreeTags(slots: seq<Slot>) {
    forall k | 0 <= k < |slots| :: !HasSep(slots[k].tag)
  }

  lemma {:induction false} SlotsSep(slots: seq<Slot>)
    requires SepFreeTags(slots)
    ensures HasSep(RenderSlots(slots)) <==> !SepFreePiece(Slotted(slots))
    decreases |slots|
  {
    if slots != [] {
      var s, rest := slots[0], slots[1..];
      assert forall k | 0 < k < |slots| :: slots[k] == rest[k - 1];
      SlotsSep(rest);
      BodySep(s);
      BracketSep(s.tag, Body(s));
      assert RenderSlot(s)[|RenderSlot(s)| - 1] == ']';
      HasSepConcat(RenderSlot(s), RenderSlots(rest));
    }
  }
}
