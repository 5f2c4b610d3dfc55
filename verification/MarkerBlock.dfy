/** Splicing a generated projection into a document between its two markers. */
module MarkerBlock {
  import opened Basics

  /** `Malformed` is the tool's own error; `NoEndMarker` the uncaught failure of a search. */
  datatype Merged = Ok(text: string) | Malformed | NoEndMarker

  const TITLE := "ADAPTIVE GROK GOVERNANCE PROJECTION: "

  function BeginMarker(name: string): string { "<!-- BEGIN " + TITLE + name + " -->" }
  function EndMarker(name: string): string { "<!-- END " + TITLE + name + " -->" }

  predicate Occurs(text: string, mark: string, i: int) {
    0 <= i && i + |mark| <= |text| && text[i..i + |mark|] == mark
  }

  /** The first occurrence at or after `from`. */
  function Find(text: string, mark: string, from: nat): (r: Option<nat>)
    ensures r.Some? ==> from <= r.value && Occurs(text, mark, r.value)
    ensures forall i :: from <= i && Occurs(text, mark, i) ==> r.Some? && r.value <= i
    decreases |text| - from
  {
    if from + |mark| > |text| then None
    else if Occurs(text, mark, from) then Some(from)
    else Find(text, mark, from + 1)
  }

  /** Non-overlapping occurrences, counted from the left. */
  function CountFrom(text: string, mark: string, from: nat): (n: nat)
    requires mark != ""
    ensures n == 0 <==> Find(text, mark, from).None?
    decreases |text| - from
  {
    if from + |mark| > |text| then 0
    else if Occurs(text, mark, from) then 1 + CountFrom(text, mark, from + |mark|)
    else CountFrom(text, mark, from + 1)
  }

  function MergeProjection(existing: string, projection: string, name: string): Merged {
    var begin, end := BeginMarker(name), EndMarker(name);
    var beginCount, endCount := CountFrom(existing, begin, 0), CountFrom(existing, end, 0);
    if beginCount != endCount || beginCount > 1 then Malformed
    else if beginCount == 1 then
      var start := Find(existing, begin, 0).value;
      var last := Find(existing, end, start);
      if last.None? then NoEndMarker
      else
        var finish := last.value + |end|;
        var after := if finish < |existing| && existing[finish] == '\n' then finish + 1 else finish;
        Ok(existing[..start] + projection + existing[after..])
    else
      var newline := Find(existing, "\n", 0);
      if newline.None? then Ok(existing + "\n\n" + projection)
      else
        var insertion := newline.value + 1;
        Ok(existing[..insertion] + "\n" + projection + existing[insertion..])
  }

  // Markers

  /** A marker whose first character occurs nowhere else in it, on one line: its occurrences never overlap. */
  ghost predicate Plain(mark: string) {
    mark != "" && mark[0] == '<' && '<' !in mark[1..] && '\n' !in mark
  }

  /** A name that leaves the markers plain. */
  predicate PlainName(name: string) { '<' !in name && '\n' !in name }

  lemma MarkersArePlain(name: string)
    requires PlainName(name)
    ensures Plain(BeginMarker(name)) && Plain(EndMarker(name))
  {
    hide TITLE;
    TitleIsPlain();
    assert BeginMarker(name)[1..] == "!-- BEGIN " + TITLE + name + " -->";
    assert EndMarker(name)[1..] == "!-- END " + TITLE + name + " -->";
  }

  lemma TitleIsPlain()
    ensures '<' !in TITLE && '\n' !in TITLE
  {}

  ghost predicate Free(text: string, mark: string) { forall i :: !Occurs(text, mark, i) }

  ghost predicate Only(text: string, mark: string, at: int) {
    Occurs(text, mark, at) && forall i :: Occurs(text, mark, i) ==> i == at
  }

  lemma CharsOfOccurrence(text: string, mark: string, i: int)
    requires Plain(mark) && Occurs(text, mark, i)
    ensures text[i] == '<' && forall k :: i < k < i + |mark| ==> text[k] != '<' && text[k] != '\n'
  {
    assert text[i..i + |mark|][0] == text[i];
    forall k | i < k < i + |mark| ensures text[k] != '<' && text[k] != '\n' {
      assert text[k] == text[i..i + |mark|][k - i] == mark[1..][k - i - 1];
    }
  }

  lemma OccurrencesApart(text: string, mark: string, i: int, j: int)
    requires Plain(mark) && Occurs(text, mark, i) && Occurs(text, mark, j) && i < j
    ensures i + |mark| <= j
  {
    CharsOfOccurrence(text, mark, i);
    CharsOfOccurrence(text, mark, j);
  }

  /** Exactly one counted occurrence means exactly one occurrence. */
  lemma CountsOneExactlyWhen(text: string, mark: string)
    requires Plain(mark)
    ensures CountFrom(text, mark, 0) == 1 <==> exists at :: Only(text, mark, at)
    ensures CountFrom(text, mark, 0) == 0 <==> Free(text, mark)
  {
    var first := Find(text, mark, 0);
    if first.Some? {
      var at := first.value;
      CountAtFirst(text, mark, 0);
      forall i | Occurs(text, mark, i) && i != at ensures i >= at + |mark| { OccurrencesApart(text, mark, at, i); }
      if CountFrom(text, mark, 0) == 1 { assert Only(text, mark, at); }
    }
  }

  lemma {:induction false} CountAtFirst(text: string, mark: string, from: nat)
    requires mark != "" && Find(text, mark, from).Some?
    ensures var at := Find(text, mark, from).value;
            CountFrom(text, mark, from) == 1 + CountFrom(text, mark, at + |mark|)
    decreases |text| - from
  {
    hide Occurs;
    if !Occurs(text, mark, from) { CountAtFirst(text, mark, from + 1); }
  }

  lemma OnlyIsFound(text: string, mark: string, at: nat, from: nat)
    requires Only(text, mark, at) && from <= at
    ensures Find(text, mark, from) == Some(at)
  {}

  // Splicing

  /** A projection as the generator writes it. */
  ghost predicate Block(p: string, name: string) {
    var begin, end := BeginMarker(name), EndMarker(name);
    && |p| >= |begin| + |end| + 1 && p[|p| - 1] == '\n'
    && Only(p, begin, 0) && Only(p, end, |p| - |end| - 1)
  }

  lemma OccursInside(text: string, mark: string, i: int, from: int, to: int)
    requires 0 <= from <= i && i + |mark| <= to <= |text|
    ensures Occurs(text, mark, i) <==> Occurs(text[from..to], mark, i - from)
  {
    var inner, n := text[from..to], i - from;
    assert forall k :: n <= k < n + |mark| ==> inner[k] == text[from + k];
    assert inner[n..n + |mark|] == text[i..i + |mark|];
  }

  /** No marker straddles either end of a spliced block: its first character would stand inside the marker
      on the left, its last newline on the right. */
  lemma NothingStraddles(pre: string, p: string, post: string, mark: string, i: int)
    requires Plain(mark) && p != "" && p[0] == '<' && p[|p| - 1] == '\n'
    requires Occurs(pre + p + post, mark, i)
    ensures i + |mark| <= |pre| || (|pre| <= i && i + |mark| <= |pre| + |p|) || |pre| + |p| <= i
  {
    var text := pre + p + post;
    var left, right := |pre|, |pre| + |p| - 1;
    assert text[left] == '<' && text[right] == '\n';
    CharsOfOccurrence(text, mark, i);
  }

  lemma SpliceHasOnly(pre: string, p: string, post: string, mark: string, at: nat)
    requires Plain(mark) && p != "" && p[0] == '<' && p[|p| - 1] == '\n'
    requires Free(pre, mark) && Free(post, mark) && Only(p, mark, at)
    ensures Only(pre + p + post, mark, |pre| + at)
  {
    var text := pre + p + post;
    assert text[0..|pre|] == pre && text[|pre|..|pre| + |p|] == p && text[|pre| + |p|..|text|] == post;
    OccursInside(text, mark, |pre| + at, |pre|, |pre| + |p|);
    forall i | Occurs(text, mark, i) ensures i == |pre| + at {
      NothingStraddles(pre, p, post, mark, i);
      if i + |mark| <= |pre| { OccursInside(text, mark, i, 0, |pre|); }
      else if i >= |pre| + |p| { OccursInside(text, mark, i, |pre| + |p|, |text|); }
      else { OccursInside(text, mark, i, |pre|, |pre| + |p|); }
    }
  }

  ghost predicate Unmarked(text: string, name: string) {
    Free(text, BeginMarker(name)) && Free(text, EndMarker(name))
  }

  /** Merging into a document that already holds a block swaps the block and nothing else. */
  lemma MergeSwapsBlock(pre: string, p: string, post: string, q: string, name: string)
    requires PlainName(name) && Block(p, name) && Unmarked(pre, name) && Unmarked(post, name)
    ensures MergeProjection(pre + p + post, q, name) == Ok(pre + q + post)
  {
    hide BeginMarker, EndMarker, CountFrom, Find;
    var begin, end, text := BeginMarker(name), EndMarker(name), pre + p + post;
    MarkersArePlain(name);
    assert p[0] == p[0..|begin|][0];
    var at := |p| - |end| - 1;
    SpliceHasOnly(pre, p, post, begin, 0);
    SpliceHasOnly(pre, p, post, end, at);
    CountsOneExactlyWhen(text, begin);
    CountsOneExactlyWhen(text, end);
    OnlyIsFound(text, begin, |pre|, 0);
    OnlyIsFound(text, end, |pre| + at, |pre|);
    assert text[|pre| + at + |end|] == p[|p| - 1];
    assert text[..|pre|] == pre && text[|pre| + |p|..] == post;
  }

  /** A projection rendered between its banners is a block, as long as its lines hold no `<`. */
  lemma RenderedIsBlock(body: string, name: string)
    requires PlainName(name) && '<' !in body
    ensures Block(BeginMarker(name) + "\n" + body + "\n" + EndMarker(name) + "\n", name)
  {
    hide BeginMarker, EndMarker;
    var begin, end := BeginMarker(name), EndMarker(name);
    var p := begin + "\n" + body + "\n" + end + "\n";
    var at := |p| - |end| - 1;
    MarkersArePlain(name);
    assert p[0..|begin|] == begin && p[at..at + |end|] == end;
    CharsOfOccurrence(p, begin, 0);
    CharsOfOccurrence(p, end, at);
    assert forall k :: |begin| + 1 <= k < |begin| + 1 + |body| ==> p[k] == body[k - |begin| - 1];
    forall i, mark | (mark == begin || mark == end) && Occurs(p, mark, i) ensures i == 0 || i == at {
      CharsOfOccurrence(p, mark, i);
    }
    OtherMarker(p, name, 0, at);
  }

  lemma OtherMarker(text: string, name: string, i: int, j: int)
    requires Occurs(text, BeginMarker(name), i) && Occurs(text, EndMarker(name), j)
    ensures !Occurs(text, EndMarker(name), i) && !Occurs(text, BeginMarker(name), j)
  {
    assert BeginMarker(name)[5] == 'B' && EndMarker(name)[5] == 'E';
    assert text[i..i + |BeginMarker(name)|][5] == text[i + 5] && text[j..j + |EndMarker(name)|][5] == text[j + 5];
  }

  /** The two documents the governance records are projected into. */
  lemma ShippedNamesArePlain()
    ensures PlainName("decisions.md") && PlainName("mistakes.md")
  {}

  // The document around the block

  /** `block` runs from its begin marker to its end marker, and through the newline after it. */
  ghost predicate Marked(block: string, name: string) {
    var begin, end := BeginMarker(name), EndMarker(name);
    && Occurs(block, begin, 0)
    && (Occurs(block, end, |block| - |end|) ||
        (block != "" && block[|block| - 1] == '\n' && Occurs(block, end, |block| - |end| - 1)))
  }

  /** What a merge keeps of a document: the text around its block, or all of it when it has none. */
  ghost predicate Kept(existing: string, pre: string, post: string, name: string) {
    || (exists block :: Marked(block, name) && existing == pre + block + post)
    || (Unmarked(existing, name) && '\n' !in existing && pre == existing + "\n\n" && post == "")
    || (Unmarked(existing, name) && |pre| >= 2 && pre[|pre| - 2..] == "\n\n" && '\n' !in pre[..|pre| - 2]
        && existing == pre[..|pre| - 1] + post)
  }

  ghost predicate Splits(existing: string, pre: string, post: string, name: string) {
    && Unmarked(pre, name) && Unmarked(post, name) && Kept(existing, pre, post, name)
    && forall q :: MergeProjection(existing, q, name) == Ok(pre + q + post)
  }

  lemma PartIsFree(text: string, mark: string, from: nat, to: nat)
    requires from <= to <= |text| && mark != ""
    requires forall i :: from <= i && i + |mark| <= to ==> !Occurs(text, mark, i)
    ensures Free(text[from..to], mark)
  {
    forall i ensures !Occurs(text[from..to], mark, i) {
      if i >= 0 && i + |mark| <= to - from { OccursInside(text, mark, from + i, from, to); }
    }
  }

  lemma FreeWithNewlines(text: string, mark: string, newlines: string)
    requires Plain(mark) && Free(text, mark) && forall k :: 0 <= k < |newlines| ==> newlines[k] == '\n'
    ensures Free(text + newlines, mark)
  {
    var longer := text + newlines;
    assert longer[0..|text|] == text;
    assert newlines != "" ==> longer[|text|] == '\n';
    assert forall k :: |text| <= k < |longer| ==> longer[k] == '\n';
    forall i ensures !Occurs(longer, mark, i) {
      if Occurs(longer, mark, i) {
        CharsOfOccurrence(longer, mark, i);
        OccursInside(longer, mark, i, 0, |text|);
      }
    }
  }

  ghost predicate OneBlock(existing: string, name: string, i: int, j: int) {
    Only(existing, BeginMarker(name), i) && Only(existing, EndMarker(name), j)
  }

  /** Where the block of a document ends. */
  function BlockEnd(existing: string, name: string, last: nat): nat
    requires Occurs(existing, EndMarker(name), last)
  {
    var finish := last + |EndMarker(name)|;
    if finish < |existing| && existing[finish] == '\n' then finish + 1 else finish
  }

  lemma UnmarkedAround(existing: string, name: string, start: nat, last: nat)
    requires PlainName(name) && OneBlock(existing, name, start, last) && start < last
    ensures start + |BeginMarker(name)| <= last && BlockEnd(existing, name, last) <= |existing|
    ensures Unmarked(existing[..start], name) && Unmarked(existing[BlockEnd(existing, name, last)..], name)
  {
    hide BeginMarker, EndMarker;
    var begin, end, after := BeginMarker(name), EndMarker(name), BlockEnd(existing, name, last);
    MarkersArePlain(name);
    CharsOfOccurrence(existing, begin, start);
    CharsOfOccurrence(existing, end, last);
    PartIsFree(existing, begin, 0, start);
    PartIsFree(existing, end, 0, start);
    PartIsFree(existing, begin, after, |existing|);
    PartIsFree(existing, end, after, |existing|);
    assert existing[0..start] == existing[..start] && existing[after..|existing|] == existing[after..];
  }

  lemma MergeAtBlock(existing: string, q: string, name: string, start: nat, last: nat)
    requires PlainName(name) && OneBlock(existing, name, start, last) && start < last
    ensures BlockEnd(existing, name, last) <= |existing|
    ensures MergeProjection(existing, q, name) ==
            Ok(existing[..start] + q + existing[BlockEnd(existing, name, last)..])
  {
    hide BeginMarker, EndMarker, CountFrom, Find, Occurs;
    MarkersArePlain(name);
    CountsOneExactlyWhen(existing, BeginMarker(name));
    CountsOneExactlyWhen(existing, EndMarker(name));
    OnlyIsFound(existing, BeginMarker(name), start, 0);
    OnlyIsFound(existing, EndMarker(name), last, start);
    UnmarkedAround(existing, name, start, last);
  }

  lemma SplitAtBlock(existing: string, name: string, start: nat, last: nat) returns (pre: string, post: string)
    requires PlainName(name) && OneBlock(existing, name, start, last) && start < last
    ensures Splits(existing, pre, post, name)
  {
    hide BeginMarker, EndMarker, MergeProjection, Occurs, Unmarked, Marked;
    var after := BlockEnd(existing, name, last);
    UnmarkedAround(existing, name, start, last);
    pre, post := existing[..start], existing[after..];
    BlockIsMarked(existing, name, start, last, after);
    assert existing == pre + existing[start..after] + post;
    forall q ensures MergeProjection(existing, q, name) == Ok(pre + q + post) {
      MergeAtBlock(existing, q, name, start, last);
    }
  }

  lemma BlockIsMarked(existing: string, name: string, start: nat, last: nat, after: nat)
    requires PlainName(name) && Occurs(existing, BeginMarker(name), start) && Occurs(existing, EndMarker(name), last)
    requires start + |BeginMarker(name)| <= last && last + |EndMarker(name)| <= after <= |existing|
    requires after == last + |EndMarker(name)| ||
             (after == last + |EndMarker(name)| + 1 && existing[after - 1] == '\n')
    ensures Marked(existing[start..after], name)
  {
    hide BeginMarker, EndMarker;
    OccursInside(existing, BeginMarker(name), start, start, after);
    OccursInside(existing, EndMarker(name), last, start, after);
  }

  lemma SplitUnmarked(existing: string, name: string) returns (pre: string, post: string)
    requires PlainName(name) && Unmarked(existing, name)
    ensures Splits(existing, pre, post, name)
  {
    hide BeginMarker, EndMarker, CountFrom, Find;
    var begin, end := BeginMarker(name), EndMarker(name);
    MarkersArePlain(name);
    CountsOneExactlyWhen(existing, begin);
    CountsOneExactlyWhen(existing, end);
    var newline := FirstNewline(existing);
    var insertion := if newline.None? then |existing| else newline.value + 1;
    post := existing[insertion..];
    PartIsFree(existing, begin, 0, insertion);
    PartIsFree(existing, end, 0, insertion);
    PartIsFree(existing, begin, insertion, |existing|);
    PartIsFree(existing, end, insertion, |existing|);
    assert existing[0..insertion] == existing[..insertion] && existing[insertion..|existing|] == post;
    var extra := if newline.None? then "\n\n" else "\n";
    FreeWithNewlines(existing[..insertion], begin, extra);
    FreeWithNewlines(existing[..insertion], end, extra);
    pre := existing[..insertion] + extra;
    if newline.None? {
      assert existing[..insertion] == existing && post == "";
      forall q ensures MergeProjection(existing, q, name) == Ok(pre + q + post) {
        assert pre + q + post == existing + "\n\n" + q;
      }
    } else {
      assert pre[..|pre| - 1] == existing[..insertion];
      assert pre[..|pre| - 2] == existing[..insertion - 1];
      assert existing == pre[..|pre| - 1] + post;
    }
  }

  lemma FirstNewline(text: string) returns (r: Option<nat>)
    ensures r == Find(text, "\n", 0)
    ensures r.None? ==> '\n' !in text
    ensures r.Some? ==> r.value < |text| && text[r.value] == '\n' && '\n' !in text[..r.value]
  {
    r := Find(text, "\n", 0);
    forall i | 0 <= i < |text| && text[i] == '\n' ensures r.Some? && r.value <= i {
      assert text[i..i + 1] == "\n";
      assert Occurs(text, "\n", i);
    }
    if r.Some? { assert text[r.value..r.value + 1][0] == '\n'; }
  }

  /** A merge succeeds exactly on a document without markers, or with one of each in the right order; the
      order is the one thing the tool does not report as its own error. */
  lemma MergesExactlyWhen(existing: string, q: string, name: string)
    requires PlainName(name)
    ensures MergeProjection(existing, q, name).Ok? <==>
            Unmarked(existing, name) || exists i, j :: OneBlock(existing, name, i, j) && i < j
    ensures MergeProjection(existing, q, name) == NoEndMarker <==>
            exists i, j :: OneBlock(existing, name, i, j) && j < i
  {
    hide BeginMarker, EndMarker, CountFrom, Find;
    var begin, end := BeginMarker(name), EndMarker(name);
    MarkersArePlain(name);
    CountsOneExactlyWhen(existing, begin);
    CountsOneExactlyWhen(existing, end);
    if i, j :| OneBlock(existing, name, i, j) {
      OnlyIsFound(existing, begin, i, 0);
      if i < j { OnlyIsFound(existing, end, j, i); }
      MarkersDiffer(existing, name, i, j);
    }
    if CountFrom(existing, begin, 0) == 1 && CountFrom(existing, end, 0) == 1 {
      var i :| Only(existing, begin, i);
      var j :| Only(existing, end, j);
      assert OneBlock(existing, name, i, j);
    }
  }

  lemma TwoOpenings(a: string, b: string)
    requires Plain(a) && Plain(b)
    ensures forall k :: 0 <= k < |a + b| && (a + b)[k] == '<' ==> k == 0 || k == |a|
  {
    forall k | 0 < k < |a| ensures (a + b)[k] != '<' {
      assert (a + b)[k] == a[1..][k - 1];
    }
    forall k | |a| < k < |a + b| ensures (a + b)[k] != '<' {
      assert (a + b)[k] == b[1..][k - |a| - 1];
    }
  }

  /** The uncaught failure happens for every plain name: the two markers the wrong way round. */
  lemma WrongOrderIsUncaught(q: string, name: string)
    requires PlainName(name)
    ensures MergeProjection(EndMarker(name) + BeginMarker(name), q, name) == NoEndMarker
  {
    hide MergeProjection, TITLE, Plain;
    var begin, end := BeginMarker(name), EndMarker(name);
    var existing := end + begin;
    MarkersArePlain(name);
    TwoOpenings(end, begin);
    assert Occurs(existing, begin, |end|) && Occurs(existing, end, 0);
    forall i | Occurs(existing, begin, i) ensures i == |end| {
      assert existing[i] == begin[0] == '<' && existing[i + 5] == begin[5] == 'B';
    }
    forall j | Occurs(existing, end, j) ensures j == 0 {
      assert existing[j] == end[0] == '<' && existing[j + 5] == end[5] == 'E';
    }
    assert OneBlock(existing, name, |end|, 0);
    MergesExactlyWhen(existing, q, name);
  }

  lemma MarkersDiffer(existing: string, name: string, i: int, j: int)
    requires OneBlock(existing, name, i, j)
    ensures i != j
  {
    assert existing[i..i + |BeginMarker(name)|][5] == 'B';
    assert existing[j..j + |EndMarker(name)|][5] == 'E';
  }

  lemma MergedSplits(existing: string, q: string, name: string) returns (pre: string, post: string)
    requires PlainName(name) && MergeProjection(existing, q, name).Ok?
    ensures Splits(existing, pre, post, name)
  {
    hide BeginMarker, EndMarker, MergeProjection, Only, Free, Splits;
    MergesExactlyWhen(existing, q, name);
    if Unmarked(existing, name) {
      pre, post := SplitUnmarked(existing, name);
    } else {
      var i, j :| OneBlock(existing, name, i, j) && i < j;
      BlockStartsInText(existing, name, i, j);
      pre, post := SplitAtBlock(existing, name, i, j);
    }
  }

  lemma BlockStartsInText(existing: string, name: string, i: int, j: int)
    requires OneBlock(existing, name, i, j)
    ensures i >= 0 && j >= 0
  {}

  // Main results

  /** Whatever was merged before, the last projection wins: earlier ones leave no trace. */
  lemma LastProjectionWins(existing: string, p: string, q: string, name: string)
    requires PlainName(name) && Block(p, name) && MergeProjection(existing, p, name).Ok?
    ensures MergeProjection(MergeProjection(existing, p, name).text, q, name) == MergeProjection(existing, q, name)
  {
    hide MergeProjection, Block, Unmarked, Kept;
    var pre, post := MergedSplits(existing, p, name);
    MergeSwapsBlock(pre, p, post, q, name);
  }

  /** Merging the same projection twice is merging it once. */
  lemma MergeIsIdempotent(existing: string, p: string, name: string)
    requires PlainName(name) && Block(p, name) && MergeProjection(existing, p, name).Ok?
    ensures MergeProjection(MergeProjection(existing, p, name).text, p, name) == MergeProjection(existing, p, name)
  {
    LastProjectionWins(existing, p, p, name);
  }

  /** The text outside the block is kept, character for character, for any projection. */
  lemma TextOutsideIsKept(existing: string, q: string, name: string) returns (pre: string, post: string)
    requires PlainName(name) && MergeProjection(existing, q, name).Ok?
    ensures MergeProjection(existing, q, name) == Ok(pre + q + post)
    ensures Kept(existing, pre, post, name) && Unmarked(pre, name) && Unmarked(post, name)
  {
    hide MergeProjection, Unmarked, Kept;
    pre, post := MergedSplits(existing, q, name);
  }
}
