/** Converting a line of the slow log into a record, and exactly which records survive being printed
    and converted back. */
module SlowLogRoundTrip {
  import opened Basics
  import opened SlowLogLayout
  import opened SlowLogRecord
  import opened SlowLogScan
  import opened SlowLogSplit

  datatype Conversion = Converted(record: Record) | Skipped | RaisesValueError | Diverges

  /** The outcome on a line already split into elements. */
  function ConvertElements(elements: seq<string>): Conversion {
    if |elements| != 11 then Skipped
    else if exists k | 0 <= k < |elements| :: EndsOpen(elements[k]) then Diverges
    else if |AllValues(elements)| != 13 then RaisesValueError
    else Converted(FromFields(AllValues(elements)))
  }

  predicate AnyOpen(elements: seq<string>) {
    exists k | 0 <= k < |elements| :: EndsOpen(elements[k])
  }

  /** `convert_slow_log_record` as a function of the line. */
  function Convert(line: string): Conversion {
    ConvertElements(Split(Strip(line)))
  }

  /** The data the loop over the elements ends up with when it stands at element `i` with `data`. */
  function Gather(elements: seq<string>, i: nat, data: seq<string>): seq<string>
    requires i <= |elements|
    decreases |elements| - i
  {
    if i == |elements| then data else Gather(elements, i + 1, data + Values(elements[i]))
  }

  lemma {:induction false} GatherIsAllValues(elements: seq<string>, i: nat, data: seq<string>)
    requires i <= |elements|
    ensures Gather(elements, i, data) == data + AllValues(elements[i..])
    decreases |elements| - i
  {
    if i < |elements| {
      GatherIsAllValues(elements, i + 1, data + Values(elements[i]));
      assert elements[i..][1..] == elements[i + 1..];
      AppendAssociates(data, Values(elements[i]), AllValues(elements[i + 1..]));
    }
  }

  /** The loop over the elements; `stuck` where the bracket scan would not return. */
  method CollectData(elements: seq<string>) returns (data: seq<string>, stuck: bool)
    ensures stuck <==> exists k | 0 <= k < |elements| :: EndsOpen(elements[k])
    ensures !stuck ==> data == AllValues(elements)
  {
    data := [];
    assert Gather(elements, 0, data) == AllValues(elements) by {
      GatherIsAllValues(elements, 0, data);
      assert elements[0..] == elements;
    }
    var i := 0;
    while i < |elements|
      invariant 0 <= i <= |elements|
      invariant Gather(elements, i, data) == AllValues(elements)
      invariant forall k | 0 <= k < i :: !EndsOpen(elements[k])
    {
      if EndsOpen(elements[i]) {
        return data, true;
      }
      var values := ExtractValues(elements[i]);
      data := data + values;
      i := i + 1;
    }
    stuck := false;
  }

  /** `convert_slow_log_record`. */
  method ConvertRecord(line: string) returns (result: Conversion)
    ensures result == Convert(line)
    ensures result.Skipped? <==> SepCount(Strip(line)) != 10
    ensures result.Diverges? <==> SepCount(Strip(line)) == 10 && AnyOpen(Split(Strip(line)))
    ensures result.RaisesValueError? <==>
            && SepCount(Strip(line)) == 10 && !AnyOpen(Split(Strip(line)))
            && |AllValues(Split(Strip(line)))| != 13
  {
    SplitCount(Strip(line));
    var elements := Split(Strip(line));
    if |elements| != 11 {
      return Skipped;
    }
    var data, stuck := CollectData(elements);
    if stuck {
      return Diverges;
    }
    if |data| != 13 {
      return RaisesValueError;
    }
    return Converted(FromFields(data));
  }

  function Single(tag: string, field: string): Piece {
    Slotted([Slot(tag, field, false)])
  }

  /** The eleven pieces of a printed record. */
  function Layout(r: Record): seq<Piece> {
    [Single("", r.logLevel), Plain(r.time), Single("", r.node),
     Slotted([Slot("", r.index, false), Slot("", r.shard, false), Slot(" took", r.took, false)]),
     Single("took_millis", r.tookMillis), Slotted([Slot("total_hits", r.totalHits, true)]), Single("stats", r.stats),
     Single("search_type", r.searchType), Single("total_shards", r.totalShards), Single("source", r.source),
     Single("id", r.id)]
  }

  lemma OneSlot(s: Slot)
    ensures RenderSlots([s]) == RenderSlot(s)
  {
    assert [s][1..] == [] && RenderSlot(s) + "" == RenderSlot(s);
  }

  lemma ThreeSlots(a: Slot, b: Slot, c: Slot)
    ensures RenderSlots([a, b, c]) == RenderSlot(a) + RenderSlot(b) + RenderSlot(c)
  {
    assert [a, b, c][1..] == [b, c] && [b, c][1..] == [c];
    OneSlot(c);
  }

  lemma SingleRendered(tag: string, field: string)
    ensures Render(Single(tag, field)) == Bracket(tag, field)
  {
    OneSlot(Slot(tag, field, false));
  }

  lemma HitsRendered(tag: string, field: string)
    ensures Render(Slotted([Slot(tag, field, true)])) == Bracket(tag, field + " hits")
  {
    OneSlot(Slot(tag, field, true));
  }

  lemma TripleRendered(a: string, b: string, c: string)
    ensures Render(Slotted([Slot("", a, false), Slot("", b, false), Slot(" took", c, false)])) ==
            Bracket("", a) + Bracket("", b) + Bracket(" took", c)
  {
    ThreeSlots(Slot("", a, false), Slot("", b, false), Slot(" took", c, false));
  }

  lemma ElementsAreRendered(r: Record)
    ensures Elements(r) == RenderAll(Layout(r))
  {
    SingleRendered("", r.logLevel);
    SingleRendered("", r.node);
    TripleRendered(r.index, r.shard, r.took);
    SingleRendered("took_millis", r.tookMillis);
    HitsRendered("total_hits", r.totalHits);
    SingleRendered("stats", r.stats);
    SingleRendered("search_type", r.searchType);
    SingleRendered("total_shards", r.totalShards);
    SingleRendered("source", r.source);
    SingleRendered("id", r.id);
    EqualAtEleven(Elements(r), RenderAll(Layout(r)));
  }

  lemma EqualAtEleven(x: seq<string>, y: seq<string>)
    requires |x| == |y| == 11 && x[0] == y[0] && x[1] == y[1] && x[2] == y[2] && x[3] == y[3] && x[4] == y[4]
    requires x[5] == y[5] && x[6] == y[6] && x[7] == y[7] && x[8] == y[8] && x[9] == y[9] && x[10] == y[10]
    ensures x == y
  {
  }

  /** The bracket scan gives every field of the piece back. */
  predicate GoodPiece(p: Piece) {
    match p
    case Plain(text) => Free(text, '[')
    case Slotted(slots) => forall k | 0 <= k < |slots| :: GoodSlot(slots[k])
  }

  function PieceFields(p: Piece): seq<string> {
    match p
    case Plain(text) => [text]
    case Slotted(slots) => seq(|slots|, k requires 0 <= k < |slots| => slots[k].field)
  }

  lemma {:induction false} SlotMarksAt(slots: seq<Slot>)
    ensures |SlotMarks(slots)| == |slots|
    ensures forall k | 0 <= k < |slots| :: SlotMarks(slots)[k] == Mark(slots[k].field, GoodSlot(slots[k]))
    decreases |slots|
  {
    if slots != [] {
      SlotMarksAt(slots[1..]);
    }
  }

  lemma PieceMarksMean(p: Piece)
    ensures AllGood(PieceMarks(p)) <==> GoodPiece(p)
    ensures MarkedFields(PieceMarks(p)) == PieceFields(p)
  {
    var marks := PieceMarks(p);
    match p
    case Plain(text) =>
      assert marks[0] == Mark(text, Free(text, '['));
    case Slotted(slots) =>
      SlotMarksAt(slots);
      if AllGood(marks) {
        forall k | 0 <= k < |slots| ensures GoodSlot(slots[k]) {
          assert marks[k].good;
        }
      }
  }

  function FieldLists(pieces: seq<Piece>): seq<seq<string>> {
    seq(|pieces|, k requires 0 <= k < |pieces| => PieceFields(pieces[k]))
  }

  lemma MarkedFieldsAppend(x: seq<Mark>, y: seq<Mark>)
    ensures MarkedFields(x + y) == MarkedFields(x) + MarkedFields(y)
  {
  }

  lemma AllGoodAppend(x: seq<Mark>, y: seq<Mark>)
    ensures AllGood(x + y) <==> AllGood(x) && AllGood(y)
  {
    assert forall k | 0 <= k < |x| :: (x + y)[k] == x[k];
    assert forall k | 0 <= k < |y| :: (x + y)[|x| + k] == y[k];
  }

  predicate AllGoodPieces(pieces: seq<Piece>) {
    forall k | 0 <= k < |pieces| :: GoodPiece(pieces[k])
  }

  lemma {:induction false} AllMarksMean(pieces: seq<Piece>)
    ensures AllGood(AllMarks(pieces)) <==> AllGoodPieces(pieces)
    ensures MarkedFields(AllMarks(pieces)) == Flatten(FieldLists(pieces))
    decreases |pieces|
  {
    if pieces != [] {
      var rest := pieces[1..];
      AllMarksMean(rest);
      PieceMarksMean(pieces[0]);
      MarkedFieldsAppend(PieceMarks(pieces[0]), AllMarks(rest));
      AllGoodAppend(PieceMarks(pieces[0]), AllMarks(rest));
      assert MarkLists(pieces)[1..] == MarkLists(rest) && FieldLists(pieces)[1..] == FieldLists(rest);
      assert AllGoodPieces(pieces) <==> GoodPiece(pieces[0]) && AllGoodPieces(rest) by {
        assert forall k | 0 < k < |pieces| :: pieces[k] == rest[k - 1];
      }
    }
  }

  lemma {:induction false} FlattenFrom<T>(lists: seq<seq<T>>, k: nat)
    requires k < |lists|
    ensures Flatten(lists[k..]) == lists[k] + Flatten(lists[k + 1..])
  {
    assert lists[k..][1..] == lists[k + 1..];
  }

  /** Seven single values at the end. */
  lemma {:induction false} FlattenTail<T>(lists: seq<seq<T>>, x: seq<T>)
    requires |lists| == 11 && |x| == 13 && forall k | 4 <= k < 11 :: lists[k] == [x[k + 2]]
    ensures Flatten(lists[4..]) == x[6..]
  {
    for k := 11 downto 4
      invariant Flatten(lists[k..]) == x[k + 2..]
    {
      FlattenFrom(lists, k);
    }
  }

  /** The shape of a record: single values, and a triple in the fourth place. */
  lemma {:induction false} FlattenRecord<T>(lists: seq<seq<T>>, x: seq<T>)
    requires |lists| == 11 && |x| == 13 && forall k | 4 <= k < 11 :: lists[k] == [x[k + 2]]
    requires lists[0] == [x[0]] && lists[1] == [x[1]] && lists[2] == [x[2]] && lists[3] == [x[3], x[4], x[5]]
    ensures Flatten(lists) == x
  {
    FlattenTail(lists, x);
    FlattenFrom(lists, 3);
    FlattenFrom(lists, 2);
    FlattenFrom(lists, 1);
    FlattenFrom(lists, 0);
    assert lists[0..] == lists;
    assert x == [x[0]] + ([x[1]] + ([x[2]] + ([x[3], x[4], x[5]] + x[6..])));
  }

  lemma LayoutFields(r: Record)
    ensures Flatten(FieldLists(Layout(r))) == Fields(r)
  {
    FlattenRecord(FieldLists(Layout(r)), Fields(r));
  }

  lemma PrintIsNotStripped(r: Record)
    ensures Strip(Print(r)) == Print(r)
  {
    var e := Elements(r);
    assert e[0][0] == '[' && e[10][|e[10]| - 1] == ']';
    JoinLast(e);
    StripNothing(Print(r));
  }

  lemma {:induction false} SlotsEndClosed(slots: seq<Slot>)
    requires slots != []
    ensures var s := RenderSlots(slots); s != "" && s[|s| - 1] == ']'
    decreases |slots|
  {
    if |slots| > 1 {
      SlotsEndClosed(slots[1..]);
    } else {
      OneSlot(slots[0]);
      assert slots == [slots[0]];
    }
  }

  lemma GoodPieceEndsClosed(p: Piece)
    requires WellLaid(p) && GoodPiece(p)
    ensures !EndsOpen(Render(p))
  {
    if p.Slotted? {
      SlotsEndClosed(p.slots);
    }
  }

  ghost predicate SoundPiece(p: Piece) {
    GoodPiece(p) && SepFreePiece(p)
  }

  /** A bracketed field that is read back: no ", ", no "]" and no " hits" at its end. */
  ghost predicate CleanField(field: string) {
    !HasSep(field) && Free(field, ']') && !EndsHits(field)
  }

  /** The record is read back from its printed form: the bracketed fields are clean, except that the
      hits may end in " hits" but not in a comma, and the time holds neither ", " nor "[". */
  ghost predicate RoundTrips(r: Record) {
    && CleanField(r.logLevel) && CleanField(r.node) && CleanField(r.index) && CleanField(r.shard)
    && CleanField(r.took) && CleanField(r.tookMillis) && CleanField(r.stats) && CleanField(r.searchType)
    && CleanField(r.totalShards) && CleanField(r.source) && CleanField(r.id)
    && !HasSep(r.totalHits) && Free(r.totalHits, ']') && !EndsComma(r.totalHits)
    && !HasSep(r.time) && Free(r.time, '[')
  }

  lemma SlotSound(tag: string, field: string, hits: bool)
    ensures SoundPiece(Slotted([Slot(tag, field, hits)])) <==>
            if hits then !HasSep(field) && Free(field, ']') && !EndsComma(field) else CleanField(field)
  {
    var slots := [Slot(tag, field, hits)];
    assert slots[0] == Slot(tag, field, hits);
  }

  lemma TripleSound(a: string, b: string, c: string)
    ensures SoundPiece(Slotted([Slot("", a, false), Slot("", b, false), Slot(" took", c, false)])) <==>
            CleanField(a) && CleanField(b) && CleanField(c)
  {
    var x, y, z := Slot("", a, false), Slot("", b, false), Slot(" took", c, false);
    var slots := [x, y, z];
    assert slots[0] == x && slots[1] == y && slots[2] == z;
  }

  lemma LayoutSound(r: Record)
    ensures RoundTrips(r) <==> AllSepFree(Layout(r)) && AllGoodPieces(Layout(r))
  {
    var p := Layout(r);
    SlotSound("", r.logLevel, false);
    SlotSound("", r.node, false);
    TripleSound(r.index, r.shard, r.took);
    SlotSound("took_millis", r.tookMillis, false);
    SlotSound("total_hits", r.totalHits, true);
    SlotSound("stats", r.stats, false);
    SlotSound("search_type", r.searchType, false);
    SlotSound("total_shards", r.totalShards, false);
    SlotSound("source", r.source, false);
    SlotSound("id", r.id, false);
    EveryOfEleven(seq(11, k requires 0 <= k < 11 => SoundPiece(p[k])));
    SoundIsBoth(p);
  }

  lemma SoundIsBoth(pieces: seq<Piece>)
    ensures (forall k | 0 <= k < |pieces| :: SoundPiece(pieces[k])) <==> AllSepFree(pieces) && AllGoodPieces(pieces)
  {
    if forall k | 0 <= k < |pieces| :: SoundPiece(pieces[k]) {
      forall k | 0 <= k < |pieces| ensures SepFreePiece(pieces[k]) && GoodPiece(pieces[k]) {
        assert SoundPiece(pieces[k]);
      }
    }
  }

  lemma EveryOfEleven(b: seq<bool>)
    requires |b| == 11
    ensures (forall k | 0 <= k < 11 :: b[k]) <==>
            b[0] && b[1] && b[2] && b[3] && b[4] && b[5] && b[6] && b[7] && b[8] && b[9] && b[10]
  {
  }

  ghost predicate FitPiece(p: Piece) {
    WellLaid(p) && (p.Slotted? ==> SepFreeTags(p.slots))
  }

  lemma RenderSep(p: Piece)
    requires FitPiece(p)
    ensures HasSep(Render(p)) <==> !SepFreePiece(p)
  {
    if p.Slotted? {
      SlotsSep(p.slots);
    }
  }

  lemma SingleFits(tag: string, field: string, hits: bool)
    requires Free(tag, '[') && !HasSep(tag)
    ensures FitPiece(Slotted([Slot(tag, field, hits)]))
  {
    var slots := [Slot(tag, field, hits)];
    assert slots[0].tag == tag && slots[1..] == [];
    assert PlainTags(slots[1..]) && PlainTags(slots);
  }

  lemma TripleFits(a: string, b: string, c: string)
    ensures FitPiece(Slotted([Slot("", a, false), Slot("", b, false), Slot(" took", c, false)]))
  {
    var slots := [Slot("", a, false), Slot("", b, false), Slot(" took", c, false)];
    assert slots[1..] == [slots[1], slots[2]] && slots[1..][1..] == [slots[2]] && [slots[2]][1..] == [];
    assert PlainTags([slots[2]]) && PlainTags([slots[1], slots[2]]);
  }

  lemma LayoutFits(r: Record)
    ensures forall k | 0 <= k < |Layout(r)| :: FitPiece(Layout(r)[k])
  {
    SingleFits("", r.logLevel, false);
    SingleFits("", r.node, false);
    TripleFits(r.index, r.shard, r.took);
    SingleFits("took_millis", r.tookMillis, false);
    SingleFits("total_hits", r.totalHits, true);
    SingleFits("stats", r.stats, false);
    SingleFits("search_type", r.searchType, false);
    SingleFits("total_shards", r.totalShards, false);
    SingleFits("source", r.source, false);
    SingleFits("id", r.id, false);
  }

  ghost predicate AllSepFree(pieces: seq<Piece>) {
    forall k | 0 <= k < |pieces| :: SepFreePiece(pieces[k])
  }

  lemma JoinedSplits(pieces: seq<Piece>)
    requires pieces != [] && forall k | 0 <= k < |pieces| :: FitPiece(pieces[k])
    ensures var parts := Split(Join(RenderAll(pieces)));
            if AllSepFree(pieces) then parts == RenderAll(pieces) else |parts| != |pieces|
  {
    var elements := RenderAll(pieces);
    SplitJoin(elements);
    forall k | 0 <= k < |pieces| ensures HasSep(elements[k]) <==> !SepFreePiece(pieces[k]) {
      RenderSep(pieces[k]);
    }
  }

  /** Conversion of the joined renderings of eleven fitting pieces with thirteen fields. */
  lemma ConvertJoined(pieces: seq<Piece>, r: Record)
    requires |pieces| == 11 && forall k | 0 <= k < 11 :: FitPiece(pieces[k])
    requires Flatten(FieldLists(pieces)) == Fields(r)
    ensures ConvertElements(Split(Join(RenderAll(pieces)))) == Converted(r) <==>
            AllSepFree(pieces) && AllGoodPieces(pieces)
  {
    JoinedSplits(pieces);
    if AllSepFree(pieces) {
      ConvertPieces(pieces, r);
    }
  }

  lemma DataExactly(pieces: seq<Piece>)
    requires forall k | 0 <= k < |pieces| :: WellLaid(pieces[k])
    ensures AllValues(RenderAll(pieces)) == Flatten(FieldLists(pieces)) <==> AllGoodPieces(pieces)
  {
    PiecesTake(pieces);
    TakesAsExactly(AllValues(RenderAll(pieces)), AllMarks(pieces));
    AllMarksMean(pieces);
  }

  lemma ConvertPieces(pieces: seq<Piece>, r: Record)
    requires |pieces| == 11 && forall k | 0 <= k < 11 :: WellLaid(pieces[k])
    requires Flatten(FieldLists(pieces)) == Fields(r)
    ensures ConvertElements(RenderAll(pieces)) == Converted(r) <==> AllGoodPieces(pieces)
  {
    DataExactly(pieces);
    ConvertsToExactly(RenderAll(pieces), r);
    if AllGoodPieces(pieces) {
      forall k | 0 <= k < 11 ensures !EndsOpen(RenderAll(pieces)[k]) {
        GoodPieceEndsClosed(pieces[k]);
      }
    }
  }

  lemma ConvertsToExactly(elements: seq<string>, r: Record)
    requires |elements| == 11
    ensures ConvertElements(elements) == Converted(r) <==>
            AllValues(elements) == Fields(r) && forall k | 0 <= k < 11 :: !EndsOpen(elements[k])
  {
    if |AllValues(elements)| == 13 {
      FieldsOfRecord(AllValues(elements), r);
    }
  }

  lemma FieldsOfRecord(data: seq<string>, r: Record)
    requires |data| == 13
    ensures FromFields(data) == r <==> data == Fields(r)
  {
  }

  /** Parsing the printed form gives the same record back exactly when the record round-trips. */
  lemma RoundTripExactly(r: Record)
    ensures Convert(Print(r)) == Converted(r) <==> RoundTrips(r)
  {
    PrintIsNotStripped(r);
    ElementsAreRendered(r);
    LayoutFits(r);
    LayoutFields(r);
    ConvertJoined(Layout(r), r);
    LayoutSound(r);
  }

  /** A printed record is skipped exactly when an element has a separator inside; otherwise it raises exactly
      when no scan hangs and the brackets hold another number of values than thirteen. */
  lemma PrintedOutcomeExactly(r: Record)
    ensures Convert(Print(r)) == Skipped <==> !NoSeps(Elements(r))
    ensures Convert(Print(r)) == Diverges <==> NoSeps(Elements(r)) && AnyOpen(Elements(r))
    ensures Convert(Print(r)) == RaisesValueError <==>
            NoSeps(Elements(r)) && !AnyOpen(Elements(r)) && |AllValues(Elements(r))| != 13
  {
    PrintIsNotStripped(r);
    SplitJoin(Elements(r));
  }

  lemma {:induction false} PlainValues(elements: seq<string>)
    requires forall k | 0 <= k < |elements| :: Free(elements[k], '[')
    ensures AllValues(elements) == elements
    decreases |elements|
  {
    if elements != [] {
      assert Free(elements[0], '[') && Find(elements[0], '[', 0) == -1;
      PlainValues(elements[1..]);
      assert elements == [elements[0]] + elements[1..];
    }
  }

  /** A line that is skipped, one that raises, and a record that comes back. */
  lemma OutcomesHappen()
    ensures Convert("a") == Skipped
    ensures Convert(Join(seq(11, _ => "a"))) == RaisesValueError
    ensures var r := Record("a", "a", "a", "a", "a", "a", "a", "a", "a", "a", "a", "a", "a");
            Convert(Print(r)) == Converted(r)
  {
    assert "a"[0] == 'a';
    StripNothing("a");
    SplitWhole("a");
    ElevenPlain();
    var r := Record("a", "a", "a", "a", "a", "a", "a", "a", "a", "a", "a", "a", "a");
    assert !HasSep("a") && Free("a", ']') && Free("a", '[') && !EndsHits("a") && !EndsComma("a");
    RoundTripExactly(r);
  }

  lemma ElevenPlain()
    ensures Convert(Join(seq(11, _ => "a"))) == RaisesValueError
  {
    var elements := seq(11, _ => "a");
    var line := Join(elements);
    assert "a"[0] == 'a';
    assert line[0] == elements[0][0];
    JoinLast(elements);
    StripNothing(line);
    SplitJoin(elements);
    PlainValues(elements);
  }

  /** A printed record whose time ends with an opening bracket is never converted: the scan does not end. */
  lemma OpenTimeDiverges(r: Record)
    requires EndsOpen(r.time) && forall k | 0 <= k < 11 :: !HasSep(Elements(r)[k])
    ensures Convert(Print(r)) == Diverges
  {
    PrintIsNotStripped(r);
    SplitJoin(Elements(r));
    assert Elements(r)[1] == r.time;
  }

  /** Such a line: eleven opening brackets. */
  lemma EndlessLine()
    ensures Convert(Join(seq(11, _ => "["))) == Diverges
  {
    var elements := seq(11, _ => "[");
    var line := Join(elements);
    assert line[0] == elements[0][0] == '[';
    JoinLast(elements);
    StripNothing(line);
    SplitJoin(elements);
    assert EndsOpen(elements[0]);
  }
}
