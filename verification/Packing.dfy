/** The order-preserving packer inside _chunk_changed_nodes: pieces are collected until the next one
    would exceed the budget, and a note stands alone between two collections. */
module Packing {
  import opened Basics

  /** estimate_tokens. */
  function Tokens(text: string): (tokens: nat)
    ensures 4 * tokens <= |text| <= 4 * tokens + 3
  {
    |text| / 4
  }

  function Total(pieces: seq<string>): nat {
    if pieces == [] then 0 else Total(pieces[..|pieces| - 1]) + Tokens(pieces[|pieces| - 1])
  }

  datatype Item = Piece(text: string) | Skip(note: string)

  datatype Chunk = Group(pieces: seq<string>) | Note(note: string)

  function PieceItems(pieces: seq<string>): seq<Item> {
    seq(|pieces|, i requires 0 <= i < |pieces| => Piece(pieces[i]))
  }

  function ItemsOf(c: Chunk): seq<Item> {
    match c
    case Group(pieces) => PieceItems(pieces)
    case Note(note) => [Skip(note)]
  }

  /** What the chunks contain, read in order. */
  function Flatten(chunks: seq<Chunk>): seq<Item> {
    if chunks == [] then [] else Flatten(chunks[..|chunks| - 1]) + ItemsOf(chunks[|chunks| - 1])
  }

  /** A chunk that the budget allows: a note, a single piece, or pieces that sum to at most `max`. */
  predicate Allowed(c: Chunk, max: nat) {
    c.Note? || |c.pieces| == 1 || (c.pieces != [] && Total(c.pieces) <= max)
  }

  // ----- the packer's state -----

  datatype PackState = PackState(groups: seq<Chunk>, pending: seq<string>)

  function Flushed(st: PackState): seq<Chunk> {
    if st.pending == [] then st.groups else st.groups + [Group(st.pending)]
  }

  function AddItem(st: PackState, item: Item, max: nat): PackState {
    match item
    case Skip(note) => PackState(Flushed(st) + [Note(note)], [])
    case Piece(text) =>
      if st.pending != [] && Total(st.pending) + Tokens(text) > max then PackState(Flushed(st), [text])
      else PackState(st.groups, st.pending + [text])
  }

  function Fold(items: seq<Item>, max: nat): PackState {
    if items == [] then PackState([], [])
    else AddItem(Fold(items[..|items| - 1], max), items[|items| - 1], max)
  }

  function Pack(items: seq<Item>, max: nat): seq<Chunk> {
    Flushed(Fold(items, max))
  }

  // ----- lossless, and within budget -----

  lemma FlattenSnoc(chunks: seq<Chunk>, c: Chunk)
    ensures Flatten(chunks + [c]) == Flatten(chunks) + ItemsOf(c)
  {
    assert (chunks + [c])[..|chunks|] == chunks;
  }

  function Contents(st: PackState): seq<Item> {
    Flatten(st.groups) + PieceItems(st.pending)
  }

  lemma FlushKeeps(st: PackState)
    ensures Flatten(Flushed(st)) == Contents(st)
  {
    FlattenSnoc(st.groups, Group(st.pending));
  }

  lemma NoteJoins(st: PackState, note: string)
    ensures Contents(PackState(Flushed(st) + [Note(note)], [])) == Contents(st) + [Skip(note)]
  {
    FlushKeeps(st);
    FlattenSnoc(Flushed(st), Note(note));
    assert PieceItems([]) == [];
  }

  lemma PieceJoins(st: PackState, text: string)
    ensures Contents(PackState(st.groups, st.pending + [text])) == Contents(st) + [Piece(text)]
  {
    assert PieceItems(st.pending + [text]) == PieceItems(st.pending) + [Piece(text)];
  }

  lemma PieceReopens(st: PackState, text: string)
    ensures Contents(PackState(Flushed(st), [text])) == Contents(st) + [Piece(text)]
  {
    FlushKeeps(st);
    assert PieceItems([text]) == [Piece(text)];
  }

  lemma AddKeeps(st: PackState, item: Item, max: nat)
    ensures Contents(AddItem(st, item, max)) == Contents(st) + [item]
  {
    match item
    case Skip(note) => NoteJoins(st, note);
    case Piece(text) =>
      PieceJoins(st, text);
      PieceReopens(st, text);
  }

  lemma {:induction false} FoldKeepsItems(items: seq<Item>, max: nat)
    ensures Contents(Fold(items, max)) == items
  {
    if items == [] {
      assert PieceItems([]) == [];
    } else {
      FoldKeepsItems(items[..|items| - 1], max);
      AddKeepsAll(Fold(items[..|items| - 1], max), items, max);
    }
  }

  lemma AddKeepsAll(st: PackState, items: seq<Item>, max: nat)
    requires items != [] && Contents(st) == items[..|items| - 1]
    ensures Contents(AddItem(st, items[|items| - 1], max)) == items
  {
    AddKeeps(st, items[|items| - 1], max);
  }

  /** The chunks hold exactly the items, in order, each once. */
  lemma PackKeepsItems(items: seq<Item>, max: nat)
    ensures Flatten(Pack(items, max)) == items
  {
    FoldKeepsItems(items, max);
    FlushKeeps(Fold(items, max));
  }

  lemma {:induction false} PackAllowed(items: seq<Item>, max: nat)
    ensures forall c | c in Pack(items, max) :: Allowed(c, max)
    ensures var st := Fold(items, max);
            (forall c | c in st.groups :: Allowed(c, max)) && (st.pending != [] ==> Allowed(Group(st.pending), max))
  {
    if items == [] {
    } else {
      PackAllowed(items[..|items| - 1], max);
      var st, last := Fold(items[..|items| - 1], max), items[|items| - 1];
      if last.Piece? {
        assert (st.pending + [last.text])[..|st.pending|] == st.pending;
      }
    }
  }

  // ----- optimality -----

  lemma {:induction false} TotalOfSuffix(a: seq<string>, b: seq<string>)
    ensures Total(a + b) >= Total(b)
  {
    if b == [] {
    } else {
      assert (a + b)[..|a + b| - 1] == a + b[..|b| - 1];
      TotalOfSuffix(a, b[..|b| - 1]);
    }
  }

  ghost predicate Packing(chunks: seq<Chunk>, items: seq<Item>, max: nat) {
    Flatten(chunks) == items && forall i | 0 <= i < |chunks| :: Allowed(chunks[i], max)
  }

  ghost function Size(c: Chunk): nat {
    |ItemsOf(c)|
  }

  /** `a` beats `b`: fewer chunks, or as many with a last one at most as long. */
  ghost predicate Ahead(a: seq<Chunk>, b: seq<Chunk>) {
    |a| < |b| || (|a| == |b| && (a != [] ==> Size(a[|a| - 1]) <= Size(b[|b| - 1])))
  }

  lemma FlattenSplit(chunks: seq<Chunk>)
    requires chunks != []
    ensures Flatten(chunks) == Flatten(chunks[..|chunks| - 1]) + ItemsOf(chunks[|chunks| - 1])
  {
  }

  /** Two chunks at the end of the same items: the shorter is a suffix of the longer. */
  lemma SuffixOf(as_: seq<Item>, short: seq<string>, bs: seq<Item>, long: seq<string>)
    requires as_ + PieceItems(short) == bs + PieceItems(long) && |short| <= |long|
    ensures Total(short) <= Total(long)
  {
    var all, d := as_ + PieceItems(short), |long| - |short|;
    forall i | 0 <= i < |short| ensures short[i] == long[d + i] {
      assert all[|as_| + i] == Piece(short[i]) && all[|bs| + d + i] == Piece(long[d + i]);
    }
    assert long == long[..d] + short;
    TotalOfSuffix(long[..d], short);
  }

  lemma DropLastItem(before: seq<Item>, pieces: seq<string>)
    requires pieces != []
    ensures var all, front := before + PieceItems(pieces), pieces[..|pieces| - 1];
            all[..|all| - 1] == before + PieceItems(front) && all[|all| - 1] == Piece(pieces[|pieces| - 1])
  {
  }

  lemma TotalFront(pieces: seq<string>)
    requires pieces != []
    ensures Total(pieces[..|pieces| - 1]) <= Total(pieces)
  {
  }

  /** Taking the last item away from a packing. */
  lemma Peel(chunks: seq<Chunk>, items: seq<Item>, max: nat) returns (peeled: seq<Chunk>)
    requires Packing(chunks, items, max) && items != []
    ensures chunks != []
    ensures var last := chunks[|chunks| - 1];
            var alone := Size(last) == 1;
            && Packing(peeled, items[..|items| - 1], max)
            && (alone ==> |peeled| == |chunks| - 1)
            && (!alone ==> last.Group? && |last.pieces| >= 2 && |peeled| == |chunks| &&
                           peeled[|peeled| - 1] == Group(last.pieces[..|last.pieces| - 1]) &&
                           items[|items| - 1] == Piece(last.pieces[|last.pieces| - 1]) && Total(last.pieces) <= max)
  {
    assert chunks != [];
    var front, last := chunks[..|chunks| - 1], chunks[|chunks| - 1];
    FlattenSplit(chunks);
    assert Allowed(last, max);
    if Size(last) == 1 {
      peeled := front;
      assert items[..|items| - 1] == Flatten(front);
    } else {
      var shorter := Group(last.pieces[..|last.pieces| - 1]);
      peeled := front + [shorter];
      FlattenSnoc(front, shorter);
      DropLastItem(Flatten(front), last.pieces);
      TotalFront(last.pieces);
      assert Allowed(shorter, max);
    }
  }

  /** If a rival's last group is at least as long as ours, it holds at least as many tokens. */
  lemma PendingIsSmaller(items: seq<Item>, max: nat, rival: seq<Chunk>, theirs: seq<string>)
    requires Packing(rival, items, max) && Ahead(Pack(items, max), rival) && |Pack(items, max)| == |rival|
    requires rival != [] && rival[|rival| - 1] == Group(theirs) && theirs != []
    ensures Fold(items, max).pending != [] && Total(Fold(items, max).pending) <= Total(theirs)
  {
    FoldKeepsItems(items, max);
    FlattenSplit(rival);
    DropLastItem(Flatten(rival[..|rival| - 1]), theirs);
    LastPending(items, max);
    EndsCompare(Fold(items, max), rival, theirs);
  }

  lemma EndsCompare(st: PackState, rival: seq<Chunk>, theirs: seq<string>)
    requires st.pending != [] && rival != [] && rival[|rival| - 1] == Group(theirs)
    requires Contents(st) == Flatten(rival[..|rival| - 1]) + PieceItems(theirs)
    requires Ahead(Flushed(st), rival) && |Flushed(st)| == |rival|
    ensures Total(st.pending) <= Total(theirs)
  {
    assert Flushed(st)[|rival| - 1] == Group(st.pending);
    SuffixOf(Flatten(st.groups), st.pending, Flatten(rival[..|rival| - 1]), theirs);
  }

  lemma {:induction false} PackAhead(items: seq<Item>, max: nat, rival: seq<Chunk>)
    requires Packing(rival, items, max)
    ensures Ahead(Pack(items, max), rival)
  {
    if items == [] {
    } else {
      var front, last := items[..|items| - 1], items[|items| - 1];
      var peeled := Peel(rival, items, max);
      PackAhead(front, max, peeled);
      var end := rival[|rival| - 1];
      if Size(end) > 1 && |Pack(front, max)| == |peeled| {
        // The rival's last group has room for this piece, hence so has ours.
        var theirs := end.pieces[..|end.pieces| - 1];
        PendingIsSmaller(front, max, peeled, theirs);
        assert Total(end.pieces) == Total(theirs) + Tokens(last.text);
      }
      AddStep(Fold(front, max), last, max);
    }
  }

  /** One item adds at most one chunk; a new last chunk has size one, an extended one grows by one. */
  lemma AddStep(st: PackState, item: Item, max: nat)
    ensures var earlier, later := Flushed(st), Flushed(AddItem(st, item, max));
            var fits := item.Piece? && st.pending != [] && Total(st.pending) + Tokens(item.text) <= max;
            && later != []
            && (fits ==> |later| == |earlier| && Size(later[|later| - 1]) == Size(earlier[|earlier| - 1]) + 1)
            && (!fits ==> |later| == |earlier| + 1 && Size(later[|later| - 1]) == 1)
  {
  }

  /** Behind a piece, the packer always has something pending. */
  lemma LastPending(items: seq<Item>, max: nat)
    requires items != []
    ensures items[|items| - 1].Piece? <==> Fold(items, max).pending != []
  {
  }

  /** No order-preserving packing within the rules has fewer chunks. */
  lemma PackOptimal(items: seq<Item>, max: nat, rival: seq<Chunk>)
    requires Flatten(rival) == items && forall c | c in rival :: Allowed(c, max)
    ensures |Pack(items, max)| <= |rival|
  {
    PackAhead(items, max, rival);
  }

  function Behind(groups: seq<Chunk>, st: PackState): PackState {
    PackState(groups + st.groups, st.pending)
  }

  lemma AddBehind(groups: seq<Chunk>, st: PackState, item: Item, max: nat)
    ensures AddItem(Behind(groups, st), item, max) == Behind(groups, AddItem(st, item, max))
    ensures Flushed(Behind(groups, st)) == groups + Flushed(st)
  {
  }

  lemma {:induction false} FoldBehind(before: seq<Item>, note: string, after: seq<Item>, max: nat)
    ensures Fold(before + [Skip(note)] + after, max) == Behind(Pack(before, max) + [Note(note)], Fold(after, max))
  {
    var all := before + [Skip(note)] + after;
    if after == [] {
      assert all == before + [Skip(note)] && all[..|all| - 1] == before;
    } else {
      var front, last := after[..|after| - 1], after[|after| - 1];
      assert all[..|all| - 1] == before + [Skip(note)] + front && all[|all| - 1] == last;
      FoldBehind(before, note, front, max);
      AddBehind(Pack(before, max) + [Note(note)], Fold(front, max), last, max);
    }
  }

  /** Notes cut the work in two: what lies on one side never affects the other, so each run of pieces
      between notes is packed as if it stood alone, hence optimally. */
  lemma RunsAreIndependent(before: seq<Item>, note: string, after: seq<Item>, max: nat)
    ensures Pack(before + [Skip(note)] + after, max) == Pack(before, max) + [Note(note)] + Pack(after, max)
  {
    FoldBehind(before, note, after, max);
    var groups, st := Pack(before, max) + [Note(note)], Fold(after, max);
    assert Flushed(Behind(groups, st)) == groups + Flushed(st);
  }

  // ----- the text of a chunk -----

  function FileHeader(path: string): string {
    "FILE: " + path + "\n"
  }

  function ChunkText(path: string, c: Chunk): string {
    match c
    case Group(pieces) => FileHeader(path) + Join("\n\n", pieces)
    case Note(note) => note
  }

  function ChunkTexts(path: string, chunks: seq<Chunk>): seq<string> {
    seq(|chunks|, i requires 0 <= i < |chunks| => ChunkText(path, chunks[i]))
  }

  /** What a chunk's text holds: the file line and every piece in order, each at its offset, with an empty
      line between any two; or the note. */
  ghost predicate ChunkReads(path: string, text: string, c: Chunk) {
    match c
    case Group(pieces) => "FILE: " + path + "\n" <= text && Laid(text, |path| + 7, pieces, "\n\n")
    case Note(note) => text == note
  }

  lemma TextReads(path: string, c: Chunk)
    requires c.Group? ==> c.pieces != []
    ensures ChunkReads(path, ChunkText(path, c), c)
  {
    if c.Group? {
      JoinLaid(FileHeader(path), "\n\n", c.pieces);
      assert |FileHeader(path)| == |path| + 7;
    }
  }

  /** Text by text, the chunks read as they were packed. */
  ghost predicate AllRead(path: string, texts: seq<string>, chunks: seq<Chunk>) {
    |texts| == |chunks| && forall i | 0 <= i < |chunks| :: ChunkReads(path, texts[i], chunks[i])
  }

  lemma PackReads(path: string, items: seq<Item>, max: nat)
    ensures AllRead(path, ChunkTexts(path, Pack(items, max)), Pack(items, max))
  {
    var chunks := Pack(items, max);
    PackAllowed(items, max);
    forall i | 0 <= i < |chunks| ensures ChunkReads(path, ChunkText(path, chunks[i]), chunks[i]) {
      assert chunks[i] in chunks;
      TextReads(path, chunks[i]);
    }
  }

  lemma {:induction false} TotalHead(pieces: seq<string>)
    requires pieces != []
    ensures Total(pieces) == Tokens(pieces[0]) + Total(pieces[1..])
  {
    if |pieces| == 1 {
    } else {
      TotalHead(pieces[..|pieces| - 1]);
      assert pieces[..|pieces| - 1][1..] == pieces[1..][..|pieces| - 2];
    }
  }

  lemma {:induction false} JoinedLength(sep: string, pieces: seq<string>)
    requires pieces != [] && 1 <= |sep| <= 2
    ensures |Join(sep, pieces)| <= 4 * Total(pieces) + (if |sep| == 1 then 4 * |pieces| - 1 else 5 * |pieces| - 2)
  {
    TotalHead(pieces);
    if |pieces| == 1 {
    } else {
      JoinedLength(sep, pieces[1..]);
    }
  }

  /** Summing floored estimates cannot hide much text: a group within budget, of n pieces under a header
      of length h, is at most h + 4 * max + 5n - 2 characters long. */
  lemma GroupTextBounded(path: string, pieces: seq<string>, max: nat)
    requires pieces != [] && Total(pieces) <= max
    ensures |ChunkText(path, Group(pieces))| <= |FileHeader(path)| + 4 * max + 5 * |pieces| - 2
  {
    JoinedLength("\n\n", pieces);
  }
}
