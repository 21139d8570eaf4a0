/** Splitting a message for delivery (src/mergemate/interfaces/telegram/message_utils.py). */
module MessageSplit {
  import opened Whitespace

  /** `s.rstrip()` keeps the first `n` characters. */
  method RStrip(s: string) returns (n: nat)
    ensures n <= |s| && forall i :: n <= i < |s| ==> Space(s[i])
    ensures n > 0 ==> !Space(s[n - 1])
  {
    n := |s|;
    while n > 0 && Space(s[n - 1])
      invariant 0 <= n <= |s| && forall i :: n <= i < |s| ==> Space(s[i])
    {
      n := n - 1;
    }
  }

  /** `s.lstrip("\n")` drops the first `n` characters. */
  method LStripNewlines(s: string) returns (n: nat)
    ensures n <= |s| && forall i :: 0 <= i < n ==> s[i] == '\n'
    ensures n < |s| ==> s[n] != '\n'
  {
    n := 0;
    while n < |s| && s[n] == '\n'
      invariant 0 <= n <= |s| && forall i :: 0 <= i < n ==> s[i] == '\n'
    {
      n := n + 1;
    }
  }

  /** `s.rfind("\n", 0, end)`. */
  method RFindNewline(s: string, end: nat) returns (at: int)
    requires end <= |s|
    ensures -1 <= at < end && (at >= 0 ==> s[at] == '\n')
    ensures forall i :: at < i < end ==> s[i] != '\n'
  {
    at := end - 1;
    while at >= 0 && s[at] != '\n'
      invariant -1 <= at < end && forall i :: at < i < end ==> s[i] != '\n'
      decreases at + 1
    {
      at := at - 1;
    }
  }

  /** Where one chunk lies in the text: it is `text[start..kept]`, cut at `cut`, and `next` is where the
      next one begins. */
  datatype Piece = Piece(start: nat, kept: nat, cut: nat, next: nat)

  /** Where to cut: at the last newline within the limit if there is one that is neither first nor in the
      first half, else at the limit. */
  ghost predicate CutPoint(text: string, limit: nat, start: nat, cut: nat)
    requires start + limit <= |text|
  {
    if cut == start + limit then
      forall i :: start + 1 <= i < start + limit && start + limit / 2 <= i ==> text[i] != '\n'
    else
      && start + 1 <= cut < start + limit && start + limit / 2 <= cut && text[cut] == '\n'
      && forall i :: cut < i < start + limit ==> text[i] != '\n'
  }

  ghost predicate PieceOk(text: string, limit: nat, p: Piece) {
    && p.start < |text| && p.start <= p.kept <= p.cut <= p.next <= |text|
    && p.kept <= p.start + limit
    && if |text| - p.start <= limit then p.kept == p.next == |text|
       else
         && CutPoint(text, limit, p.start, p.cut)
         && (forall i :: p.kept <= i < p.cut ==> Space(text[i]))
         && (p.kept > p.start ==> !Space(text[p.kept - 1]))
         && (forall i :: p.cut <= i < p.next ==> text[i] == '\n')
         && (p.next < |text| ==> text[p.next] != '\n')
  }

  /** The pieces follow each other without a gap from 0 to `end`. */
  ghost predicate Tiles(pieces: seq<Piece>, end: nat) {
    if pieces == [] then end == 0
    else pieces[|pieces| - 1].next == end && Tiles(pieces[..|pieces| - 1], pieces[|pieces| - 1].start)
  }

  function LeastCut(limit: nat): nat {
    if limit / 2 >= 1 then limit / 2 else 1
  }

  /** The cut of what remains of the text, with positions counted from its beginning. */
  method CutOne(remaining: string, limit: nat) returns (p: Piece)
    requires 1 <= limit < |remaining|
    ensures p.start == 0 && PieceOk(remaining, limit, p) && p.next > 0
  {
    var splitAt := RFindNewline(remaining, limit);
    if splitAt <= 0 || splitAt < limit / 2 {
      splitAt := limit;
    }
    var kept := RStrip(remaining[..splitAt]);
    var newlines := LStripNewlines(remaining[splitAt..]);
    p := Piece(0, kept, splitAt, splitAt + newlines);
    assert forall i :: splitAt <= i < |remaining| ==> remaining[i] == remaining[splitAt..][i - splitAt];
  }

  /** What remains is the last piece if it fits. */
  method NextPiece(limit: nat, remaining: string) returns (p: Piece)
    requires 1 <= limit && remaining != ""
    ensures p.start == 0 && PieceOk(remaining, limit, p) && 0 < p.next <= |remaining| && p.kept <= |remaining|
  {
    if |remaining| > limit {
      p := CutOne(remaining, limit);
    } else {
      p := Piece(0, |remaining|, |remaining|, |remaining|);
    }
  }

  function Shifted(p: Piece, offset: nat): Piece {
    Piece(p.start + offset, p.kept + offset, p.cut + offset, p.next + offset)
  }

  lemma ShiftedOk(text: string, offset: nat, limit: nat, p: Piece)
    requires offset <= |text| && PieceOk(text[offset..], limit, p)
    ensures PieceOk(text, limit, Shifted(p, offset))
  {
    assert forall i :: offset <= i < |text| ==> text[i] == text[offset..][i - offset];
  }

  ghost predicate Progress(text: string, limit: nat, chunks: seq<string>, pieces: seq<Piece>, end: nat) {
    && |chunks| == |pieces| && Tiles(pieces, end)
    && forall i :: 0 <= i < |pieces| ==> PieceOk(text, limit, pieces[i])
                                         && chunks[i] == text[pieces[i].start..pieces[i].kept]
  }

  lemma ProgressMore(text: string, limit: nat, chunks: seq<string>, pieces: seq<Piece>, p: Piece, chunk: string)
    requires Progress(text, limit, chunks, pieces, p.start) && PieceOk(text, limit, p)
    requires chunk == text[p.start..p.kept]
    ensures Progress(text, limit, chunks + [chunk], pieces + [p], p.next)
  {
    assert (pieces + [p])[..|pieces|] == pieces;
  }

  /** One turn of the loop; it is the last when what remains fits. */
  method Turn(ghost text: string, limit: nat, chunks: seq<string>, pieces: seq<Piece>, remaining: string, start: nat)
    returns (chunks': seq<string>, pieces': seq<Piece>, remaining': string, start': nat)
    requires 1 <= limit && start < |text| && remaining == text[start..]
    requires Progress(text, limit, chunks, pieces, start)
    ensures start < start' <= |text| && remaining' == text[start'..]
    ensures Progress(text, limit, chunks', pieces', start')
  {
    var p := NextPiece(limit, remaining);
    TurnProgress(text, limit, chunks, pieces, start, p);
    chunks', pieces' := chunks + [remaining[..p.kept]], pieces + [Shifted(p, start)];
    remaining', start' := remaining[p.next..], start + p.next;
  }

  /** The piece cut from what remains, seen in the whole text. */
  lemma TurnProgress(text: string, limit: nat, chunks: seq<string>, pieces: seq<Piece>, start: nat, p: Piece)
    requires start <= |text| && Progress(text, limit, chunks, pieces, start)
    requires p.start == 0 && PieceOk(text[start..], limit, p)
    ensures Progress(text, limit, chunks + [text[start..][..p.kept]], pieces + [Shifted(p, start)], start + p.next)
    ensures text[start..][p.next..] == text[start + p.next..]
  {
    ShiftedOk(text, start, limit, p);
    TailSlices(text, start, p.kept, p.next);
    ProgressMore(text, limit, chunks, pieces, Shifted(p, start), text[start..][..p.kept]);
  }

  lemma TailSlices(text: string, start: nat, kept: nat, next: nat)
    requires start + kept <= |text| && start + next <= |text|
    ensures text[start..][..kept] == text[start..start + kept] && text[start..][next..] == text[start + next..]
  {
  }

  lemma {:induction false} EachUsesHalf(text: string, limit: nat, pieces: seq<Piece>, end: nat)
    requires 1 <= limit && end < |text| && Tiles(pieces, end)
    requires forall i :: 0 <= i < |pieces| ==> PieceOk(text, limit, pieces[i])
    ensures |pieces| * LeastCut(limit) <= end
  {
    if pieces != [] {
      var p := pieces[|pieces| - 1];
      EachUsesHalf(text, limit, pieces[..|pieces| - 1], p.start);
      assert PieceOk(text, limit, p);
      OneMoreCut(|pieces| - 1, LeastCut(limit), p.start, end);
    }
  }

  lemma OneMoreCut(n: nat, cut: nat, start: nat, next: nat)
    requires n * cut <= start && start + cut <= next
    ensures (n + 1) * cut <= next
  {
    assert (n + 1) * cut == n * cut + cut;
  }

  /** A split text gives few chunks: each but the last uses up half the limit. */
  lemma FewChunks(text: string, limit: nat, chunks: seq<string>, pieces: seq<Piece>)
    requires 1 <= limit < |text| && Progress(text, limit, chunks, pieces, |text|)
    ensures |chunks| >= 1 && (|chunks| - 1) * LeastCut(limit) < |text|
  {
    var n := |pieces| - 1;
    assert PieceOk(text, limit, pieces[n]);
    EachUsesHalf(text, limit, pieces[..n], pieces[n].start);
  }

  /** A text within the limit is its only chunk. A longer one is tiled by pieces whose cuts are made where
      they should be, each chunk a piece without the white space at its end. `pieces` shows where the
      chunks lie. */
  method SplitMessage(text: string, limit: nat) returns (chunks: seq<string>, pieces: seq<Piece>)
    requires 1 <= limit
    ensures forall i :: 0 <= i < |chunks| ==> |chunks[i]| <= limit
    ensures |text| <= limit ==> chunks == [text]
    ensures |text| > limit ==> Progress(text, limit, chunks, pieces, |text|)
  {
    chunks, pieces := [], [];
    if |text| <= limit {
      return [text], [];
    }
    var remaining := text;
    var start: nat := 0;
    while remaining != ""
      invariant 0 <= start <= |text| && remaining == text[start..]
      invariant Progress(text, limit, chunks, pieces, start)
      decreases |remaining|
    {
      chunks, pieces, remaining, start := Turn(text, limit, chunks, pieces, remaining, start);
    }
    ChunksFit(text, limit, chunks, pieces);
  }

  lemma ChunksFit(text: string, limit: nat, chunks: seq<string>, pieces: seq<Piece>)
    requires Progress(text, limit, chunks, pieces, |text|)
    ensures forall i :: 0 <= i < |chunks| ==> |chunks[i]| <= limit
  {
    forall i | 0 <= i < |chunks| ensures |chunks[i]| <= limit {
      assert PieceOk(text, limit, pieces[i]);
    }
  }

  // ---------------------------------------------------------------- nothing but white space is lost

  ghost predicate Placed(text: string, pieces: seq<Piece>) {
    forall i :: 0 <= i < |pieces| ==> pieces[i].start <= pieces[i].kept <= pieces[i].next <= |text|
  }

  /** The chunks with the text dropped after each of them. */
  ghost function Rejoined(text: string, pieces: seq<Piece>): string
    requires Placed(text, pieces)
  {
    if pieces == [] then ""
    else
      var p := pieces[|pieces| - 1];
      Rejoined(text, pieces[..|pieces| - 1]) + text[p.start..p.kept] + text[p.kept..p.next]
  }

  lemma {:induction false} TilesRejoin(text: string, pieces: seq<Piece>, end: nat)
    requires end <= |text| && Tiles(pieces, end) && Placed(text, pieces)
    ensures Rejoined(text, pieces) == text[..end]
  {
    if pieces != [] {
      var p := pieces[|pieces| - 1];
      TilesRejoin(text, pieces[..|pieces| - 1], p.start);
      assert text[..p.start] + text[p.start..p.kept] + text[p.kept..p.next] == text[..end];
    }
  }

  /** Putting back after each chunk what was dropped there, all of it white space, gives the text. */
  lemma OnlySpaceDropped(text: string, limit: nat, chunks: seq<string>, pieces: seq<Piece>)
    requires Progress(text, limit, chunks, pieces, |text|)
    ensures Placed(text, pieces) && Rejoined(text, pieces) == text
    ensures forall i, j :: 0 <= i < |pieces| && pieces[i].kept <= j < pieces[i].next ==> Space(text[j])
  {
    TilesRejoin(text, pieces, |text|);
    forall i, j | 0 <= i < |pieces| && pieces[i].kept <= j < pieces[i].next
      ensures Space(text[j])
    {
      assert PieceOk(text, limit, pieces[i]);
    }
  }
}
