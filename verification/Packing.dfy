/** Packing pieces into overlapping chunks: the last loop of src/passages/chunk.rs, and what
    the whole chunker guarantees for any token counter. */
module Packing {
  import opened Text
  import opened Chunker

  /** One chunk: the piece repeated from the chunk before it, if any, then its own run. */
  datatype Block = Block(overlap: seq<string>, run: seq<string>) {
    function Parts(): seq<string> { overlap + run }

    function Body(): string { Join(Parts(), " ") }
  }

  function Bodies(blocks: seq<Block>): (r: seq<string>)
    ensures |r| == |blocks| && forall i | 0 <= i < |blocks| :: r[i] == blocks[i].Body()
  {
    if blocks == [] then [] else Bodies(blocks[..|blocks| - 1]) + [blocks[|blocks| - 1].Body()]
  }

  function Runs(blocks: seq<Block>): seq<string> {
    if blocks == [] then [] else Runs(blocks[..|blocks| - 1]) + blocks[|blocks| - 1].run
  }

  function Last(s: seq<string>): string
    requires s != []
  {
    s[|s| - 1]
  }

  function Tokens(count: Counter, parts: seq<string>): nat {
    count(Join(parts, " "))
  }

  // ---- What a packing is ----

  /** A chunk's run is not empty, and it was not closed any earlier because no shorter run
      reached the target and every further piece still fitted. */
  ghost predicate Filled(count: Counter, b: Block) {
    && b.run != []
    && forall j | 0 < j < |b.run| :: StaysOpen(count, b.overlap + b.run[..j], b.run[j])
  }

  /** Below the target, and with room for one more piece. */
  predicate StaysOpen(count: Counter, parts: seq<string>, piece: string) {
    Tokens(count, parts) < TARGET_TOKENS && Tokens(count, parts + [piece]) <= MAX_TOKENS
  }

  /** The overlap a run opening with `piece` gets after a run ending in `last`. */
  function OverlapFor(count: Counter, last: string, piece: string): seq<string> {
    if Tokens(count, [last, piece]) > MAX_TOKENS then [] else [last]
  }

  /** b was closed where it was, and the run opening with `piece` got `overlap`: b had reached
      the target or could not take the piece, and the overlap is b's last piece if that fits. */
  ghost predicate Turns(count: Counter, b: Block, overlap: seq<string>, piece: string)
    requires b.run != []
  {
    && (Tokens(count, b.Parts()) >= TARGET_TOKENS
        || Tokens(count, b.Parts() + [piece]) > MAX_TOKENS)
    && overlap == OverlapFor(count, Last(b.run), piece)
  }

  ghost predicate WellPacked(count: Counter, blocks: seq<Block>) {
    && (forall i | 0 <= i < |blocks| :: Filled(count, blocks[i]))
    && (blocks != [] ==> blocks[0].overlap == [])
    && (forall i | 0 < i < |blocks| ::
      Turns(count, blocks[i - 1], blocks[i].overlap, blocks[i].run[0]))
  }

  ghost predicate IsPacking(count: Counter, pieces: seq<string>, blocks: seq<Block>) {
    WellPacked(count, blocks) && Runs(blocks) == pieces
  }

  // ---- The loop ----

  /** The loop's state: closed chunks, the overlap kept, and the pieces added since. */
  datatype Pack = Pack(closed: seq<Block>, overlap: seq<string>, run: seq<string>)

  function Close(p: Pack): Pack
    requires p.run != []
  {
    Pack(p.closed + [Block(p.overlap, p.run)], [Last(p.run)], [])
  }

  function MakeRoom(count: Counter, p: Pack, piece: string): Pack {
    var q := if p.run != [] && Tokens(count, p.overlap + p.run + [piece]) > MAX_TOKENS
             then Close(p) else p;
    if q.run == [] && Tokens(count, q.overlap + [piece]) > MAX_TOKENS then q.(overlap := [])
    else q
  }

  function Add(count: Counter, p: Pack, piece: string): Pack {
    var q := MakeRoom(count, p, piece);
    var r := q.(run := q.run + [piece]);
    if Tokens(count, r.overlap + r.run) >= TARGET_TOKENS then Close(r) else r
  }

  function AddAll(count: Counter, pieces: seq<string>): Pack {
    if pieces == [] then Pack([], [], [])
    else Add(count, AddAll(count, pieces[..|pieces| - 1]), pieces[|pieces| - 1])
  }

  function BlocksOf(p: Pack): seq<Block> {
    if p.run == [] then p.closed else p.closed + [Block(p.overlap, p.run)]
  }

  function PackPieces(count: Counter, pieces: seq<string>): seq<Block> {
    BlocksOf(AddAll(count, pieces))
  }

  /** The chunks of a body. */
  function ChunksOf(count: Counter, body: string): seq<string> {
    Bodies(PackPieces(count, Pieces(count, body)))
  }

  /** The variables of the loop in `chunk`, as the state they stand for. */
  ghost predicate Represents(p: Pack, chunks: seq<string>, current: seq<string>, added: nat) {
    chunks == Bodies(p.closed) && current == p.overlap + p.run && added == |p.run|
      && |p.overlap| <= 1
  }

  lemma BodiesSnoc(blocks: seq<Block>, b: Block)
    ensures Bodies(blocks + [b]) == Bodies(blocks) + [b.Body()]
  {
    assert (blocks + [b])[..|blocks|] == blocks;
  }

  lemma LastOfConcat(a: seq<string>, b: seq<string>)
    requires b != []
    ensures Last(a + b) == Last(b)
  {
  }

  method CloseChunk(ghost p: Pack, chunks: seq<string>, current: seq<string>)
    returns (chunks': seq<string>, current': seq<string>)
    requires p.run != [] && Represents(p, chunks, current, |p.run|)
    ensures Represents(Close(p), chunks', current', 0)
  {
    ghost var b := Block(p.overlap, p.run);
    BodiesSnoc(p.closed, b);
    LastOfConcat(p.overlap, p.run);
    assert current == b.Parts();
    chunks' := chunks + [Join(current, " ")];
    current' := [Last(current)];
    EmptyConcat(current');
  }

  lemma ClosedHasNoRun(p: Pack, piece: string)
    requires p.run == []
    ensures p.overlap + p.run == p.overlap && p.overlap + p.run + [piece] == p.overlap + [piece]
  {
  }

  /** The first half of a turn: a chunk that cannot take the piece is closed, and an overlap that
      does not fit with it is dropped. */
  method FreeRoom(count: Counter, ghost p: Pack, chunks: seq<string>, current: seq<string>,
                  added: nat, piece: string)
    returns (chunks': seq<string>, current': seq<string>, added': nat, ghost q: Pack)
    requires Represents(p, chunks, current, added)
    ensures q == MakeRoom(count, p, piece) && Represents(q, chunks', current', added')
  {
    chunks', current', added', q := chunks, current, added, p;
    if added' > 0 && count(Join(current' + [piece], " ")) > MAX_TOKENS {
      chunks', current' := CloseChunk(q, chunks', current');
      added' := 0;
      q := Close(q);
    }
    if added' == 0 {
      ClosedHasNoRun(q, piece);
    }
    if added' == 0 && count(Join(current' + [piece], " ")) > MAX_TOKENS {
      current' := [];
      q := q.(overlap := []);
      EmptyConcat(q.run);
    }
  }

  method AddPiece(count: Counter, ghost p: Pack, chunks: seq<string>, current: seq<string>,
                  added: nat, piece: string)
    returns (chunks': seq<string>, current': seq<string>, added': nat)
    requires Represents(p, chunks, current, added)
    ensures Represents(Add(count, p, piece), chunks', current', added')
  {
    ghost var q;
    chunks', current', added', q := FreeRoom(count, p, chunks, current, added, piece);
    ConcatAssociative(q.overlap, q.run, [piece]);
    current' := current' + [piece];
    added' := added' + 1;
    q := q.(run := q.run + [piece]);
    if count(Join(current', " ")) >= TARGET_TOKENS {
      chunks', current' := CloseChunk(q, chunks', current');
      added' := 0;
    }
  }

  lemma AddAllStep(count: Counter, pieces: seq<string>, i: nat)
    requires i < |pieces|
    ensures AddAll(count, pieces[..i + 1]) == Add(count, AddAll(count, pieces[..i]), pieces[i])
  {
    assert pieces[..i + 1][..i] == pieces[..i];
  }

  method PackLoop(count: Counter, pieces: seq<string>) returns (chunks: seq<string>)
    ensures chunks == Bodies(PackPieces(count, pieces))
  {
    var current: seq<string> := [];
    var added := 0;
    chunks := [];
    for i := 0 to |pieces|
      invariant Represents(AddAll(count, pieces[..i]), chunks, current, added)
    {
      AddAllStep(count, pieces, i);
      chunks, current, added :=
        AddPiece(count, AddAll(count, pieces[..i]), chunks, current, added, pieces[i]);
    }
    assert pieces[..|pieces|] == pieces;
    ghost var p := AddAll(count, pieces);
    if added > 0 {
      BodiesSnoc(p.closed, Block(p.overlap, p.run));
      chunks := chunks + [Join(current, " ")];
    }
  }

  method Chunk(count: Counter, body: string) returns (chunks: seq<string>)
    ensures chunks == ChunksOf(count, body)
  {
    var pieces := CollectPieces(count, body);
    chunks := PackLoop(count, pieces);
  }

  // ---- The loop packs well ----

  /** What the loop keeps: its blocks pack the pieces so far, and the open state is right. */
  ghost predicate PackInv(count: Counter, p: Pack, pieces: seq<string>) {
    && IsPacking(count, pieces, BlocksOf(p))
    && (p.run != [] ==> Tokens(count, p.overlap + p.run) < TARGET_TOKENS)
    && (p.run == [] ==> Between(count, p.closed, p.overlap))
  }

  /** After a close at the target: the overlap on offer is the last piece. */
  ghost predicate Between(count: Counter, closed: seq<Block>, overlap: seq<string>) {
    if closed == [] then overlap == []
    else
      var b := closed[|closed| - 1];
      b.run != [] && overlap == [Last(b.run)] && Tokens(count, b.Parts()) >= TARGET_TOKENS
  }

  ghost predicate Follows(count: Counter, closed: seq<Block>, overlap: seq<string>, piece: string) {
    if closed == [] then overlap == []
    else
      var b := closed[|closed| - 1];
      b.run != [] && Turns(count, b, overlap, piece)
  }

  lemma AppendBlock(count: Counter, closed: seq<Block>, b: Block)
    requires WellPacked(count, closed) && Filled(count, b)
    requires Follows(count, closed, b.overlap, b.run[0])
    ensures WellPacked(count, closed + [b])
    ensures Runs(closed + [b]) == Runs(closed) + b.run
  {
    var all := closed + [b];
    assert all[..|closed|] == closed;
    forall i | 0 < i < |all|
      ensures Turns(count, all[i - 1], all[i].overlap, all[i].run[0])
    {
      assert i < |closed| ==> all[i] == closed[i];
      assert all[i - 1] == closed[i - 1];
    }
  }

  lemma LastBlock(count: Counter, closed: seq<Block>, b: Block)
    requires WellPacked(count, closed + [b])
    ensures WellPacked(count, closed) && Filled(count, b)
    ensures Follows(count, closed, b.overlap, b.run[0])
    ensures Runs(closed + [b]) == Runs(closed) + b.run
  {
    var all := closed + [b];
    assert all[..|closed|] == closed;
    assert forall i | 0 <= i < |closed| :: all[i] == closed[i];
    assert all[|closed|] == b;
  }

  lemma Extend(count: Counter, b: Block, piece: string)
    requires Filled(count, b) && StaysOpen(count, b.Parts(), piece)
    ensures Filled(count, Block(b.overlap, b.run + [piece]))
  {
    var c := Block(b.overlap, b.run + [piece]);
    forall j | 0 < j < |c.run|
      ensures StaysOpen(count, c.overlap + c.run[..j], c.run[j])
    {
      if j < |b.run| {
        assert c.run[..j] == b.run[..j];
      } else {
        assert c.run[..j] == b.run;
      }
    }
  }

  /** Opening a run with `piece` after the blocks so far. */
  lemma OpenRun(count: Counter, p: Pack, pieces: seq<string>, piece: string)
    requires IsPacking(count, pieces, p.closed) && p.run == []
    requires Follows(count, p.closed, p.overlap, piece)
    ensures IsPacking(count, pieces + [piece], p.closed + [Block(p.overlap, [piece])])
  {
    AppendBlock(count, p.closed, Block(p.overlap, [piece]));
  }

  lemma RoomAfterClose(count: Counter, p: Pack, pieces: seq<string>, piece: string)
    requires PackInv(count, p, pieces)
    requires p.run == [] || Tokens(count, p.overlap + p.run + [piece]) > MAX_TOKENS
    ensures var q := MakeRoom(count, p, piece);
      q.run == [] && IsPacking(count, pieces, q.closed) && Follows(count, q.closed, q.overlap, piece)
  {
    var c := if p.run == [] then p else Close(p);
    assert c.closed == BlocksOf(p);
    if c.closed != [] {
      var b := c.closed[|c.closed| - 1];
      assert c.overlap == [Last(b.run)];
      assert c.overlap + [piece] == [Last(b.run), piece];
      assert b.run != [];
    } else {
      assert c.overlap == [];
    }
  }

  lemma ExtendRun(count: Counter, p: Pack, pieces: seq<string>, piece: string)
    requires PackInv(count, p, pieces) && p.run != []
    requires Tokens(count, p.overlap + p.run + [piece]) <= MAX_TOKENS
    ensures IsPacking(count, pieces + [piece], p.closed + [Block(p.overlap, p.run + [piece])])
  {
    var b := Block(p.overlap, p.run);
    LastBlock(count, p.closed, b);
    Extend(count, b, piece);
    AppendBlock(count, p.closed, Block(p.overlap, p.run + [piece]));
    ConcatAssociative(Runs(p.closed), p.run, [piece]);
  }

  /** The run `piece` joins or opens, before the target is checked. */
  lemma GrowKeeps(count: Counter, p: Pack, pieces: seq<string>, piece: string)
    requires PackInv(count, p, pieces)
    ensures var q := MakeRoom(count, p, piece);
      IsPacking(count, pieces + [piece], q.closed + [Block(q.overlap, q.run + [piece])])
  {
    if p.run == [] || Tokens(count, p.overlap + p.run + [piece]) > MAX_TOKENS {
      RoomAfterClose(count, p, pieces, piece);
      OpenRun(count, MakeRoom(count, p, piece), pieces, piece);
      EmptyConcat([piece]);
    } else {
      ExtendRun(count, p, pieces, piece);
    }
  }

  lemma AddKeeps(count: Counter, p: Pack, pieces: seq<string>, piece: string)
    requires PackInv(count, p, pieces)
    ensures PackInv(count, Add(count, p, piece), pieces + [piece])
  {
    GrowKeeps(count, p, pieces, piece);
    var q := MakeRoom(count, p, piece);
    var r := q.(run := q.run + [piece]);
    assert r.run != [];
    assert BlocksOf(r) == BlocksOf(Close(r));
  }

  lemma {:induction false} AddAllKeeps(count: Counter, pieces: seq<string>)
    ensures PackInv(count, AddAll(count, pieces), pieces)
  {
    if pieces != [] {
      var front := pieces[..|pieces| - 1];
      AddAllKeeps(count, front);
      AddKeeps(count, AddAll(count, front), front, pieces[|pieces| - 1]);
      assert pieces == front + [pieces[|pieces| - 1]];
    }
  }

  // ---- There is only one packing ----

  lemma {:induction false} RunsPrefix(blocks: seq<Block>, i: nat)
    requires i <= |blocks|
    ensures Runs(blocks[..i]) <= Runs(blocks)
    ensures i < |blocks| ==> Runs(blocks[..i]) + blocks[i].run <= Runs(blocks)
  {
    var n := |blocks| - 1;
    if i < |blocks| {
      if i == n {
        assert blocks[..i] == blocks[..n];
      } else {
        assert blocks[..n][..i] == blocks[..i] && blocks[..n][i] == blocks[i];
        RunsPrefix(blocks[..n], i);
      }
    } else {
      assert blocks[..i] == blocks;
    }
  }

  /** The piece right after the first i + 1 runs opens the next one. */
  lemma NextRun(count: Counter, blocks: seq<Block>, i: nat)
    requires WellPacked(count, blocks) && i < |blocks|
    requires |Runs(blocks[..i])| + |blocks[i].run| < |Runs(blocks)|
    ensures i + 1 < |blocks|
    ensures blocks[i + 1].run[0] == Runs(blocks)[|Runs(blocks[..i])| + |blocks[i].run|]
  {
    assert blocks[..i + 1][..i] == blocks[..i];
    assert blocks[..|blocks|] == blocks;
    RunsPrefix(blocks, i + 1);
    assert Filled(count, blocks[i + 1]);
  }

  lemma TurnsAt(count: Counter, blocks: seq<Block>, i: nat)
    requires WellPacked(count, blocks) && i + 1 < |blocks|
    ensures blocks[i].run != [] && blocks[i + 1].run != []
    ensures Turns(count, blocks[i], blocks[i + 1].overlap, blocks[i + 1].run[0])
  {
    assert Filled(count, blocks[i]) && Filled(count, blocks[i + 1]);
    assert Turns(count, blocks[i + 1 - 1], blocks[i + 1].overlap, blocks[i + 1].run[0]);
  }

  /** A block that is not the last could not have stayed open for the piece after it. */
  lemma ClosedForNext(count: Counter, blocks: seq<Block>, i: nat, parts: seq<string>, k: nat)
    requires WellPacked(count, blocks) && i < |blocks| && parts == blocks[i].Parts()
    requires k == |Runs(blocks[..i])| + |blocks[i].run| < |Runs(blocks)|
    ensures !StaysOpen(count, parts, Runs(blocks)[k])
  {
    NextRun(count, blocks, i);
    TurnsAt(count, blocks, i);
    TurnedIsClosed(count, blocks[i], blocks[i + 1].overlap, blocks[i + 1].run[0]);
  }

  lemma TurnedIsClosed(count: Counter, b: Block, overlap: seq<string>, piece: string)
    requires b.run != [] && Turns(count, b, overlap, piece)
    ensures !StaysOpen(count, b.Parts(), piece)
  {
  }

  lemma OpenForNext(count: Counter, blocks: seq<Block>, i: nat, n: nat, parts: seq<string>, k: nat)
    requires WellPacked(count, blocks) && i < |blocks| && 0 < n < |blocks[i].run|
    requires parts == blocks[i].overlap + blocks[i].run[..n]
    requires k == |Runs(blocks[..i])| + n < |Runs(blocks)|
    ensures StaysOpen(count, parts, Runs(blocks)[k])
  {
    RunsPrefix(blocks, i);
    assert Filled(count, blocks[i]);
  }

  lemma RunIs(blocks: seq<Block>, i: nat, all: seq<string>, off: nat)
    requires i < |blocks| && all == Runs(blocks) && off == |Runs(blocks[..i])|
    ensures off + |blocks[i].run| <= |all| && all[off..off + |blocks[i].run|] == blocks[i].run
  {
    RunsPrefix(blocks, i);
  }

  /** Two runs cut at the same place from the same pieces agree as far as both go. */
  lemma SameRunStart(bs: seq<Block>, cs: seq<Block>, i: nat)
    requires Runs(bs) == Runs(cs)
    requires i < |bs| && i < |cs| && bs[..i] == cs[..i] && |bs[i].run| <= |cs[i].run|
    ensures bs[i].run == cs[i].run[..|bs[i].run|]
    ensures |Runs(bs[..i])| + |cs[i].run| <= |Runs(bs)|
  {
    var all, off := Runs(bs), |Runs(bs[..i])|;
    RunIs(bs, i, all, off);
    RunIs(cs, i, all, off);
    SamePart(all, off, bs[i].run, cs[i].run);
  }

  lemma SamePart(s: seq<string>, off: nat, a: seq<string>, b: seq<string>)
    requires |a| <= |b| && off + |b| <= |s|
    requires s[off..off + |a|] == a && s[off..off + |b|] == b
    ensures a == b[..|a|]
  {
    SliceOfSlice(s, off, off + |b|, 0, |a|);
  }

  lemma SameRunLength(count: Counter, bs: seq<Block>, cs: seq<Block>, i: nat)
    requires WellPacked(count, bs) && WellPacked(count, cs) && Runs(bs) == Runs(cs)
    requires i < |bs| && i < |cs| && bs[..i] == cs[..i] && bs[i].overlap == cs[i].overlap
    ensures |bs[i].run| >= |cs[i].run|
  {
    var n := |bs[i].run|;
    if n < |cs[i].run| {
      SameRunStart(bs, cs, i);
      assert n > 0 by {
        assert Filled(count, bs[i]);
      }
      var parts, k := bs[i].Parts(), |Runs(bs[..i])| + n;
      ClosedForNext(count, bs, i, parts, k);
      OpenForNext(count, cs, i, n, parts, k);
      assert false;
    }
  }

  /** The overlap is settled by the block before and the piece that opens the run. */
  lemma SameOverlap(count: Counter, bs: seq<Block>, cs: seq<Block>, i: nat)
    requires WellPacked(count, bs) && WellPacked(count, cs)
    requires i < |bs| && i < |cs| && bs[..i] == cs[..i]
    requires bs[i].run != [] && cs[i].run != [] && bs[i].run[0] == cs[i].run[0]
    ensures bs[i].overlap == cs[i].overlap
  {
    if i > 0 {
      assert bs[i - 1] == bs[..i][i - 1] == cs[i - 1];
      assert Turns(count, bs[i - 1], bs[i].overlap, bs[i].run[0]);
      assert Turns(count, cs[i - 1], cs[i].overlap, cs[i].run[0]);
    }
  }

  lemma SameBlock(count: Counter, bs: seq<Block>, cs: seq<Block>, i: nat)
    requires WellPacked(count, bs) && WellPacked(count, cs) && Runs(bs) == Runs(cs)
    requires i < |bs| && i < |cs| && bs[..i] == cs[..i]
    ensures bs[i] == cs[i]
  {
    var all, off := Runs(bs), |Runs(bs[..i])|;
    RunIs(bs, i, all, off);
    RunIs(cs, i, all, off);
    assert Filled(count, bs[i]) && Filled(count, cs[i]);
    assert bs[i].run[0] == all[off] == cs[i].run[0];
    SameOverlap(count, bs, cs, i);
    SameRunLength(count, bs, cs, i);
    SameRunLength(count, cs, bs, i);
  }

  lemma {:induction false} SamePrefix(count: Counter, bs: seq<Block>, cs: seq<Block>, i: nat)
    requires WellPacked(count, bs) && WellPacked(count, cs) && Runs(bs) == Runs(cs)
    requires i <= |bs| && i <= |cs|
    ensures bs[..i] == cs[..i]
  {
    if i > 0 {
      SamePrefix(count, bs, cs, i - 1);
      SameBlock(count, bs, cs, i - 1);
    }
  }

  lemma NoMoreBlocks(count: Counter, bs: seq<Block>, cs: seq<Block>)
    requires WellPacked(count, cs) && Runs(bs) == Runs(cs)
    requires |bs| <= |cs| && bs == cs[..|bs|]
    ensures |bs| == |cs|
  {
    RunsPrefix(cs, |bs|);
    assert |bs| < |cs| ==> Filled(count, cs[|bs|]);
  }

  /** The packing of given pieces is determined by what a packing is. */
  lemma PackingUnique(count: Counter, pieces: seq<string>, bs: seq<Block>, cs: seq<Block>)
    requires IsPacking(count, pieces, bs) && IsPacking(count, pieces, cs)
    ensures bs == cs
  {
    if |bs| <= |cs| {
      SamePrefix(count, bs, cs, |bs|);
      assert bs[..|bs|] == bs;
      NoMoreBlocks(count, bs, cs);
    } else {
      SamePrefix(count, bs, cs, |cs|);
      assert cs[..|cs|] == cs;
      NoMoreBlocks(count, cs, bs);
    }
  }

  // ---- What the chunks of a body are ----

  /** For any counter, the chunks are the bodies of the one packing of the body's pieces: no
      piece is lost, repeated within the runs or reordered, no chunk is only overlap, and
      without the overlaps the chunks hold exactly the body's non-space characters. */
  lemma ChunksOfBody(count: Counter, body: string, blocks: seq<Block>)
    ensures IsPacking(count, Pieces(count, body), PackPieces(count, Pieces(count, body)))
    ensures IsPacking(count, Pieces(count, body), blocks) ==>
      ChunksOf(count, body) == Bodies(blocks) && Ink(Concat(Runs(blocks))) == Ink(body)
  {
    var pieces := Pieces(count, body);
    AddAllKeeps(count, pieces);
    PiecesInk(count, body);
    if IsPacking(count, pieces, blocks) {
      PackingUnique(count, pieces, blocks, PackPieces(count, pieces));
    }
  }
}
