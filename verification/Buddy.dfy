/**
 The buddy-style slab allocator of the transfer engine's Python binding: sixteen
 classes of blocks, each twice as large as the one before, cut from 2 GB chunks.
 The memory that the system hands out is a parameter: it is new, so it overlaps
 nothing that is in use.
 */
module Buddy {
  import opened Maps
  import opened Sequences
  import opened Options

  const CHUNK: nat := 2 * 1024 * 1024 * 1024
  const MAX_CLASS: nat := 15
  const SLAB_KB: seq<nat> := [
    8, 16, 32, 64, 128, 256, 512, 1024, 2 * 1024, 4 * 1024, 8 * 1024, 16 * 1024,
    32 * 1024, 64 * 1024, 128 * 1024, 256 * 1024]

  function Size(c: nat): nat
    requires c <= MAX_CLASS
  {
    1024 * SLAB_KB[c]
  }

  lemma SizesDouble(c: nat)
    requires c < MAX_CLASS
    ensures Size(c) > 0 && Size(c + 1) == 2 * Size(c)
  {}

  lemma TopSize()
    ensures Size(MAX_CLASS) > 0 && CHUNK == 8 * Size(MAX_CLASS)
  {}

  lemma {:induction false} SizePositive(c: nat)
    requires c <= MAX_CLASS
    ensures Size(c) > 0
  {
    if c < MAX_CLASS { SizesDouble(c); } else { TopSize(); }
  }

  lemma {:induction false} SizesGrow(c: nat, d: nat)
    requires c < d <= MAX_CLASS
    ensures Size(c) < Size(d)
    decreases d
  {
    hide Size;
    SizesDouble(d - 1);
    if c < d - 1 { SizesGrow(c, d - 1); }
  }

  // ---- blocks ----

  datatype Piece = Piece(cls: nat, free: bool)

  type Layout = map<nat, Piece>

  ghost predicate Classes(L: Layout) {
    forall a | a in L :: L[a].cls <= MAX_CLASS
  }

  // Blocks do not overlap.
  ghost predicate Apart(L: Layout)
    requires Classes(L)
  {
    forall a, b | a in L && b in L && a < b :: a + Size(L[a].cls) <= b
  }

  ghost predicate Inside(a: nat, size: nat, chunk: nat) {
    chunk <= a && a + size <= chunk + CHUNK
  }

  // Every block lies in one of the chunks.
  ghost predicate Contained(L: Layout, chunks: seq<nat>)
    requires Classes(L)
  {
    forall a | a in L :: exists i :: 0 <= i < |chunks| && Inside(a, Size(L[a].cls), chunks[i])
  }

  ghost function Total(L: Layout): nat
    requires Classes(L)
    decreases |L|
  {
    if L == map[] then 0
    else
      var a := Pick(L);
      Smaller(L, a);
      Size(L[a].cls) + Total(L - {a})
  }

  lemma {:induction false} TotalWithout(L: Layout, a: nat)
    requires Classes(L) && a in L
    ensures Total(L) == Size(L[a].cls) + Total(L - {a})
    decreases |L|
  {
    hide Size;
    Smaller(L, a);
    var p := Pick(L);
    if p != a {
      Smaller(L, p);
      TotalWithout(L - {p}, a);
      TotalWithout(L - {a}, p);
      assert L - {p} - {a} == L - {a} - {p};
    }
  }

  lemma TotalPut(L: Layout, a: nat, p: Piece)
    requires Classes(L) && p.cls <= MAX_CLASS
    ensures Total(L[a := p]) == Size(p.cls) + if a in L then Total(L) - Size(L[a].cls) else Total(L)
  {
    hide Size;
    TotalWithout(L[a := p], a);
    if a in L {
      TotalWithout(L, a);
      assert L[a := p] - {a} == L - {a};
    } else {
      assert L[a := p] - {a} == L;
    }
  }

  // The stack of a class has exactly its free blocks, each once.
  ghost predicate Stacked(L: Layout, stack: seq<nat>, c: nat) {
    NoDup(stack) && forall a :: a in stack <==> a in L && L[a] == Piece(c, true)
  }

  // ---- regions from the system ----

  // [a, a + size) overlaps no chunk and no large buffer.
  ghost predicate Untouched(a: nat, size: nat, chunks: seq<nat>, large: map<nat, nat>) {
    && (forall i | 0 <= i < |chunks| :: a + size <= chunks[i] || chunks[i] + CHUNK <= a)
    && (forall b | b in large :: a + size <= b || b + large[b] <= a)
  }

  ghost predicate ChunksApart(chunks: seq<nat>) {
    forall i, j | 0 <= i < j < |chunks| :: chunks[i] + CHUNK <= chunks[j] || chunks[j] + CHUNK <= chunks[i]
  }

  ghost predicate LargeApart(large: map<nat, nat>, chunks: seq<nat>) {
    && (forall b | b in large :: large[b] > 0)
    && (forall b, i | b in large && 0 <= i < |chunks| :: b + large[b] <= chunks[i] || chunks[i] + CHUNK <= b)
    && (forall a, b | a in large && b in large && a != b :: a + large[a] <= b || b + large[b] <= a)
  }

  // ---- steps on layouts ----

  // A new block in unused space of a chunk.
  lemma AddPiece(L: Layout, chunks: seq<nat>, a: nat, c: nat, i: nat)
    requires Classes(L) && Apart(L) && Contained(L, chunks) && c <= MAX_CLASS
    requires i < |chunks| && Inside(a, Size(c), chunks[i])
    requires forall b | b in L :: b + Size(L[b].cls) <= a || a + Size(c) <= b
    ensures var L' := L[a := Piece(c, true)];
            a !in L && Classes(L') && Apart(L') && Contained(L', chunks) && Total(L') == Total(L) + Size(c)
  {
    hide Size, Total;
    SizePositive(c);
    if a in L { SizePositive(L[a].cls); }
    TotalPut(L, a, Piece(c, true));
    var L' := L[a := Piece(c, true)];
    forall b | b in L' ensures exists j :: 0 <= j < |chunks| && Inside(b, Size(L'[b].cls), chunks[j]) {
      if b == a {
        assert Inside(a, Size(L'[a].cls), chunks[i]);
      } else {
        var j :| 0 <= j < |chunks| && Inside(b, Size(L[b].cls), chunks[j]);
        assert Inside(b, Size(L'[b].cls), chunks[j]);
      }
    }
    forall x, y | x in L' && y in L' && x < y ensures x + Size(L'[x].cls) <= y {
      if x == a { SizePositive(L[y].cls); } else if y == a { SizePositive(L[x].cls); }
    }
  }

  ghost function Halved(L: Layout, a: nat, c: nat): Layout
    requires c < MAX_CLASS
  {
    L[a := Piece(c, true)][a + Size(c) := Piece(c, true)]
  }

  // The lower half of a block, the upper half being left out.
  lemma LowerHalf(L: Layout, chunks: seq<nat>, a: nat, c: nat)
    requires Classes(L) && Apart(L) && Contained(L, chunks) && c < MAX_CLASS && a in L && L[a] == Piece(c + 1, true)
    ensures var L' := L[a := Piece(c, true)];
            && Classes(L') && Apart(L') && Contained(L', chunks) && Total(L') + Size(c) == Total(L)
            && forall b | b in L' :: b + Size(L'[b].cls) <= a + Size(c) || a + Size(c) + Size(c) <= b
  {
    hide Size, Total;
    SizesDouble(c);
    TotalPut(L, a, Piece(c, true));
    var L' := L[a := Piece(c, true)];
    forall b | b in L'
      ensures (exists j :: 0 <= j < |chunks| && Inside(b, Size(L'[b].cls), chunks[j]))
              && (b + Size(L'[b].cls) <= a + Size(c) || a + Size(c) + Size(c) <= b)
    {
      var j :| 0 <= j < |chunks| && Inside(b, Size(L[b].cls), chunks[j]);
      assert Inside(b, Size(L'[b].cls), chunks[j]);
    }
  }

  // Cutting a block in two halves.
  lemma SplitPiece(L: Layout, chunks: seq<nat>, a: nat, c: nat)
    requires Classes(L) && Apart(L) && Contained(L, chunks) && c < MAX_CLASS && a in L && L[a] == Piece(c + 1, true)
    ensures var L' := Halved(L, a, c);
            a + Size(c) !in L && Classes(L') && Apart(L') && Contained(L', chunks) && Total(L') == Total(L)
  {
    hide Size, Total, Apart;
    SizesDouble(c);
    var i :| 0 <= i < |chunks| && Inside(a, Size(L[a].cls), chunks[i]);
    LowerHalf(L, chunks, a, c);
    assert Inside(a + Size(c), Size(c), chunks[i]);
    AddPiece(L[a := Piece(c, true)], chunks, a + Size(c), c, i);
  }

  // Handing out or taking back changes neither place nor size.
  lemma FlipPiece(L: Layout, chunks: seq<nat>, a: nat, free: bool)
    requires Classes(L) && Apart(L) && Contained(L, chunks) && a in L
    ensures var L' := L[a := L[a].(free := free)];
            Classes(L') && Apart(L') && Contained(L', chunks) && Total(L') == Total(L)
  {
    hide Size, Total;
    TotalPut(L, a, L[a].(free := free));
    var L' := L[a := L[a].(free := free)];
    forall b | b in L' ensures exists j :: 0 <= j < |chunks| && Inside(b, Size(L'[b].cls), chunks[j]) {
      var j :| 0 <= j < |chunks| && Inside(b, Size(L[b].cls), chunks[j]);
      assert Inside(b, Size(L'[b].cls), chunks[j]);
    }
  }

  // Blocks that are handed out, with their classes.
  ghost function Handed(L: Layout): map<nat, nat> {
    map a | a in L && !L[a].free :: L[a].cls
  }

  // ---- stacks ----

  lemma StackPush(L: Layout, stack: seq<nat>, a: nat, c: nat)
    requires Stacked(L, stack, c) && (a in L ==> L[a] != Piece(c, true))
    ensures Stacked(L[a := Piece(c, true)], stack + [a], c)
  {}

  lemma StackPop(L: Layout, stack: seq<nat>, c: nat, p: Piece)
    requires Stacked(L, stack, c) && stack != [] && p != Piece(c, true)
    ensures var a := stack[|stack| - 1]; a in L && L[a] == Piece(c, true) && Stacked(L[a := p], stack[..|stack| - 1], c)
  {
    var n, a := |stack| - 1, stack[|stack| - 1];
    assert a in stack;
    assert stack == stack[..n] + [a];
    assert a !in stack[..n];
    assert forall b :: b in stack <==> b in stack[..n] || b == a;
  }

  lemma StackOther(L: Layout, stack: seq<nat>, a: nat, c: nat, p: Piece)
    requires Stacked(L, stack, c) && (a in L ==> L[a] != Piece(c, true)) && p != Piece(c, true)
    ensures Stacked(L[a := p], stack, c)
  {}

  ghost predicate Stacks(free: seq<seq<nat>>, L: Layout) {
    |free| == MAX_CLASS + 1 && forall c | 0 <= c <= MAX_CLASS :: Stacked(L, free[c], c)
  }

  ghost predicate Shape(L: Layout, chunks: seq<nat>) {
    Classes(L) && Apart(L) && Contained(L, chunks)
  }

  // Free and handed-out blocks tile the chunks: they are apart, inside, of class size, and add up.
  ghost predicate Tiled(free: seq<seq<nat>>, L: Layout, chunks: seq<nat>) {
    Stacks(free, L) && Shape(L, chunks) && Total(L) == CHUNK * |chunks|
  }

  lemma HalveStacks(free: seq<seq<nat>>, L: Layout, c: nat)
    requires Stacks(free, L) && c < MAX_CLASS && free[c + 1] != []
    requires var s := free[c + 1]; s[|s| - 1] + Size(c) !in L
    ensures var s := free[c + 1]; var b := s[|s| - 1];
            && b in L && L[b] == Piece(c + 1, true)
            && Stacks(free[c + 1 := s[..|s| - 1]][c := free[c] + [b] + [b + Size(c)]], Halved(L, b, c))
  {
    hide Stacked, Size;
    SizePositive(c);
    var stack := free[c + 1];
    var b := stack[|stack| - 1];
    StackPop(L, stack, c + 1, Piece(c, true));
    var first := L[b := Piece(c, true)];
    StackPush(L, free[c], b, c);
    StackPush(first, free[c] + [b], b + Size(c), c);
    StackOther(first, stack[..|stack| - 1], b + Size(c), c + 1, Piece(c, true));
    var free' := free[c + 1 := stack[..|stack| - 1]][c := free[c] + [b] + [b + Size(c)]];
    forall d | 0 <= d <= MAX_CLASS ensures Stacked(Halved(L, b, c), free'[d], d) {
      if d != c && d != c + 1 {
        StackOther(L, free[d], b, d, Piece(c, true));
        StackOther(first, free[d], b + Size(c), d, Piece(c, true));
      }
    }
  }

  lemma HalveHanded(L: Layout, b: nat, c: nat)
    requires c < MAX_CLASS && b in L && L[b].free && b + Size(c) !in L
    ensures Handed(Halved(L, b, c)) == Handed(L)
  {}

  lemma HalveKeeps(free: seq<seq<nat>>, L: Layout, chunks: seq<nat>, c: nat)
    requires Tiled(free, L, chunks) && c < MAX_CLASS && free[c + 1] != []
    ensures var s := free[c + 1]; var b := s[|s| - 1];
            && Tiled(free[c + 1 := s[..|s| - 1]][c := free[c] + [b] + [b + Size(c)]], Halved(L, b, c), chunks)
            && Handed(Halved(L, b, c)) == Handed(L)
  {
    hide Size, Total, Stacked, Handed, Halved, Apart, Contained;
    var s := free[c + 1];
    StackPop(L, s, c + 1, Piece(c, true));
    SplitPiece(L, chunks, s[|s| - 1], c);
    HalveStacks(free, L, c);
    HalveHanded(L, s[|s| - 1], c);
  }

  lemma TakeKeeps(free: seq<seq<nat>>, L: Layout, chunks: seq<nat>, c: nat)
    requires Tiled(free, L, chunks) && c <= MAX_CLASS && free[c] != []
    ensures var s := free[c]; var b := s[|s| - 1]; var L' := L[b := Piece(c, false)];
            && Tiled(free[c := s[..|s| - 1]], L', chunks)
            && b !in Handed(L) && Handed(L') == Handed(L)[b := c]
  {
    hide Size, Total, Stacked, Apart, Contained;
    var s := free[c];
    var b := s[|s| - 1];
    StackPop(L, s, c, Piece(c, false));
    FlipPiece(L, chunks, b, false);
    forall d | 0 <= d <= MAX_CLASS && d != c ensures Stacked(L[b := Piece(c, false)], free[d], d) {
      StackOther(L, free[d], b, d, Piece(c, false));
    }
  }

  // Pushing a block that was handed out on the stack of a class, whatever its own class is.
  lemma GiveStacks(free: seq<seq<nat>>, L: Layout, b: nat, c: nat)
    requires Stacks(free, L) && b in Handed(L) && c <= MAX_CLASS
    ensures Stacks(free[c := free[c] + [b]], L[b := Piece(c, true)]) &&
      Handed(L[b := Piece(c, true)]) == Handed(L) - {b}
  {
    hide Stacked;
    StackPush(L, free[c], b, c);
    forall d | 0 <= d <= MAX_CLASS && d != c ensures Stacked(L[b := Piece(c, true)], free[d], d) {
      StackOther(L, free[d], b, d, Piece(c, true));
    }
  }

  // The blocks go on tiling the chunks if and only if the block goes back to its own class.
  lemma GiveKeeps(free: seq<seq<nat>>, L: Layout, chunks: seq<nat>, b: nat, c: nat)
    requires Tiled(free, L, chunks) && b in Handed(L) && c <= MAX_CLASS
    ensures Tiled(free[c := free[c] + [b]], L[b := Piece(c, true)], chunks) <==> c == Handed(L)[b]
  {
    hide Size, Total, Stacked, Apart, Contained;
    var h := Handed(L)[b];
    GiveStacks(free, L, b, c);
    if c == h {
      FlipPiece(L, chunks, b, true);
    } else {
      TotalPut(L, b, Piece(c, true));
      if c < h { SizesGrow(c, h); } else { SizesGrow(h, c); }
    }
  }

  // The free lists and the handed-out blocks say where every block is.
  lemma LayoutDetermined(free: seq<seq<nat>>, L: Layout, L': Layout)
    requires Stacks(free, L) && Stacks(free, L') && Classes(L) && Classes(L') && Handed(L) == Handed(L')
    ensures L == L'
  {
    forall a | a in L ensures a in L' && L'[a] == L[a] { SamePiece(free, L, L', a); }
    forall a | a in L' ensures a in L { SamePiece(free, L', L, a); }
  }

  lemma SamePiece(free: seq<seq<nat>>, L: Layout, L': Layout, a: nat)
    requires Stacks(free, L) && Stacks(free, L') && Classes(L) && Handed(L) == Handed(L') && a in L
    ensures a in L' && L'[a] == L[a]
  {
    if L[a].free {
      assert Stacked(L, free[L[a].cls], L[a].cls) && Stacked(L', free[L[a].cls], L[a].cls);
    } else {
      assert a in Handed(L);
      assert a in Handed(L');
    }
  }

  // Blocks that are handed out do not overlap each other or any free block, and each lies in a chunk.
  lemma HandedApart(free: seq<seq<nat>>, L: Layout, chunks: seq<nat>, a: nat)
    requires Tiled(free, L, chunks) && a in Handed(L)
    ensures Handed(L)[a] <= MAX_CLASS && exists i :: 0 <= i < |chunks| && Inside(a, Size(Handed(L)[a]), chunks[i])
    ensures forall b | b in Handed(L) && b != a :: a + Size(Handed(L)[a]) <= b || b + Size(Handed(L)[b]) <= a
    ensures forall c, j | 0 <= c <= MAX_CLASS && 0 <= j < |free[c]| ::
              a + Size(Handed(L)[a]) <= free[c][j] || free[c][j] + Size(c) <= a
  {
    hide Size, Total;
    forall c, j | 0 <= c <= MAX_CLASS && 0 <= j < |free[c]|
      ensures a + Size(Handed(L)[a]) <= free[c][j] || free[c][j] + Size(c) <= a
    {
      assert free[c][j] in free[c];
      assert L[free[c][j]] == Piece(c, true);
    }
  }

  // One more block of the largest class in a chunk that is being cut.
  lemma CutKeeps(free: seq<seq<nat>>, L: Layout, chunks: seq<nat>, raw: nat, offset: nat)
    requires Stacks(free, L) && Shape(L, chunks) && offset + Size(MAX_CLASS) <= CHUNK
    requires chunks != [] && chunks[|chunks| - 1] == raw
    requires forall b | b in L :: b + Size(L[b].cls) <= raw + offset || raw + CHUNK <= b
    ensures var L' := L[raw + offset := Piece(MAX_CLASS, true)];
            && Stacks(free[MAX_CLASS := free[MAX_CLASS] + [raw + offset]], L') && Shape(L', chunks)
            && Total(L') == Total(L) + Size(MAX_CLASS) && Handed(L') == Handed(L)
            && forall b | b in L' :: b + Size(L'[b].cls) <= raw + offset + Size(MAX_CLASS) || raw + CHUNK <= b
  {
    hide Size, Total, Stacked, Contained;
    AddPiece(L, chunks, raw + offset, MAX_CLASS, |chunks| - 1);
    StackPush(L, free[MAX_CLASS], raw + offset, MAX_CLASS);
    forall d | 0 <= d < MAX_CLASS ensures Stacked(L[raw + offset := Piece(MAX_CLASS, true)], free[d], d) {
      StackOther(L, free[d], raw + offset, d, Piece(MAX_CLASS, true));
    }
  }

  // ---- the allocator ----

  class SlabAllocator {
    var freeList: seq<seq<nat>>
    var bufferList: seq<nat>
    var largeBufferList: set<nat>

    ghost var layout: Layout
    ghost var large: map<nat, nat>

    ghost predicate Valid()
      reads this
    {
      && Tiled(freeList, layout, bufferList)
      && ChunksApart(bufferList)
      && largeBufferList == large.Keys && LargeApart(large, bufferList)
    }

    constructor ()
      ensures Valid() && layout == map[] && large == map[] && bufferList == []
    {
      freeList := seq(MAX_CLASS + 1, _ => []);
      bufferList, largeBufferList := [], {};
      layout, large := map[], map[];
    }

    // The smallest class that fits, or -1 when none does.
    static method FindClassId(size: nat) returns (c: int)
      ensures -1 <= c <= MAX_CLASS
      ensures c == -1 <==> size > Size(MAX_CLASS)
      ensures c >= 0 ==> size <= Size(c) && forall d | 0 <= d < c :: Size(d) < size
    {
      if size > 1024 * SLAB_KB[MAX_CLASS] { return -1; }
      var i := MAX_CLASS - 1;
      while i >= 0
        invariant -1 <= i < MAX_CLASS && size <= Size(i + 1)
      {
        if size > 1024 * SLAB_KB[i] {
          forall d | 0 <= d < i + 1 ensures Size(d) < size {
            if d < i { SizesGrow(d, i); }
          }
          return i + 1;
        }
        i := i - 1;
      }
      return 0;
    }

    // Takes a new chunk and cuts it into blocks of the largest class.
    method AddChunk(raw: nat)
      requires Valid() && Untouched(raw, CHUNK, bufferList, large)
      modifies this`freeList, this`bufferList, this`layout
      ensures Valid() && bufferList == old(bufferList) + [raw] && freeList[MAX_CLASS] != []
      ensures Handed(layout) == Handed(old(layout))
    {
      hide Size, Total, Stacked, Apart, Contained;
      TopSize();
      ghost var n := |bufferList|;
      ChunkContained(layout, bufferList, raw);
      bufferList := bufferList + [raw];
      var offset := 0;
      while offset < CHUNK
        invariant 0 <= offset <= CHUNK && offset % Size(MAX_CLASS) == 0 && bufferList == old(bufferList) + [raw]
        invariant Stacks(freeList, layout) && Shape(layout, bufferList)
        invariant Total(layout) == CHUNK * n + offset && Handed(layout) == Handed(old(layout))
        invariant forall b | b in layout :: b + Size(layout[b].cls) <= raw + offset || raw + CHUNK <= b
        invariant offset > 0 ==> freeList[MAX_CLASS] != []
        decreases CHUNK - offset
      {
        OffsetFits(offset);
        CutKeeps(freeList, layout, bufferList, raw, offset);
        layout := layout[raw + offset := Piece(MAX_CLASS, true)];
        freeList := freeList[MAX_CLASS := freeList[MAX_CLASS] + [raw + offset]];
        offset := offset + 1024 * SLAB_KB[MAX_CLASS];
      }
      OneMoreChunk(n);
    }

    // Cuts the block on top of the next class in two.
    method Halve(c: nat)
      requires Valid() && c < MAX_CLASS && freeList[c + 1] != []
      modifies this`freeList, this`layout
      ensures Valid() && freeList[c] != [] && Handed(layout) == Handed(old(layout))
    {
      hide Total, Stacked, Apart, Contained, Handed, Halved, Tiled;
      TiledLength(freeList, layout, bufferList);
      HalveKeeps(freeList, layout, bufferList, c);
      var stack := freeList[c + 1];
      var buffer := stack[|stack| - 1];
      layout := Halved(layout, buffer, c);
      freeList := freeList[c + 1 := stack[..|stack| - 1]];
      freeList := freeList[c := freeList[c] + [buffer] + [buffer + 1024 * SLAB_KB[c]]];
    }

    // No class above c has a free block.
    ghost predicate NoneAbove(c: nat)
      reads this
    {
      forall d | c < d < |freeList| :: freeList[d] == []
    }

    // Fills the free list of a class, splitting larger blocks as far up as needed. The system is
    // asked for a chunk if and only if there is no larger block.
    method DoBuddyAllocate(c: nat, raw: Option<nat>)
      requires Valid() && c <= MAX_CLASS && (raw.Some? ==> Untouched(raw.value, CHUNK, bufferList, large))
      requires NoneAbove(c) ==> raw.Some?
      modifies this`freeList, this`bufferList, this`layout
      ensures Valid() && freeList[c] != [] && Handed(layout) == Handed(old(layout))
      ensures bufferList == if old(NoneAbove(c)) then old(bufferList) + [raw.value] else old(bufferList)
      decreases MAX_CLASS - c
    {
      hide Size, Handed, Stacked, Shape, Total;
      if c == MAX_CLASS {
        AddChunk(raw.value);
        return;
      }
      if freeList[c + 1] == [] { DoBuddyAllocate(c + 1, raw); }
      Halve(c);
    }

    // Hands out the block on top of a class.
    method Take(c: nat) returns (buffer: nat)
      requires Valid() && c <= MAX_CLASS && freeList[c] != []
      modifies this`freeList, this`layout
      ensures Valid() && buffer !in Handed(old(layout)) && Handed(layout) == Handed(old(layout))[buffer := c]
    {
      hide Size, Tiled, Handed;
      TiledLength(freeList, layout, bufferList);
      TakeKeeps(freeList, layout, bufferList, c);
      var stack := freeList[c];
      buffer := stack[|stack| - 1];
      layout := layout[buffer := Piece(c, false)];
      freeList := freeList[c := stack[..|stack| - 1]];
    }

    // No free block is large enough.
    ghost predicate NoneFits(length: nat)
      reads this
    {
      forall d | 0 <= d <= MAX_CLASS && d < |freeList| && length <= Size(d) :: freeList[d] == []
    }

    // Nothing fits iff neither the smallest class that fits nor a larger one has a free block.
    lemma NoneFitsMeans(length: nat, c: nat)
      requires Fits(length, c) && |freeList| == MAX_CLASS + 1
      ensures NoneFits(length) <==> freeList[c] == [] && NoneAbove(c)
    {
      hide Size;
      FitsAbove(length, c);
    }

    // Hands out a block of the class, after filling its free list when that is empty.
    method TakeFitting(c: nat, raw: Option<nat>) returns (buffer: nat)
      requires Valid() && c <= MAX_CLASS && (raw.Some? ==> Untouched(raw.value, CHUNK, bufferList, large))
      requires freeList[c] == [] && NoneAbove(c) ==> raw.Some?
      modifies this`freeList, this`bufferList, this`layout
      ensures Valid() && buffer !in Handed(old(layout)) && Handed(layout) == Handed(old(layout))[buffer := c]
      ensures bufferList ==
        if old(freeList[c] == [] && NoneAbove(c)) then old(bufferList) + [raw.value] else old(bufferList)
    {
      hide Size, Tiled, Handed, Untouched;
      TiledLength(freeList, layout, bufferList);
      if freeList[c] == [] { DoBuddyAllocate(c, raw); }
      buffer := Take(c);
    }

    // A buffer of at least the length: a block of the smallest class that fits, or memory of its
    // own when none does. The system's answer `raw` is new memory; when a chunk is needed there is one.
    method AllocateManagedBuffer(length: nat, raw: Option<nat>) returns (buffer: Option<nat>)
      requires Valid()
      requires raw.Some? ==> Untouched(raw.value, if length > Size(MAX_CLASS) then length else CHUNK, bufferList, large)
      requires length <= Size(MAX_CLASS) && NoneFits(length) ==> raw.Some?
      modifies this
      ensures Valid()
      ensures length <= Size(MAX_CLASS) ==>
        && buffer.Some? && large == old(large) && buffer.value !in Handed(old(layout))
        && exists c :: Fits(length, c) && Handed(layout) == Handed(old(layout))[buffer.value := c]
      ensures bufferList ==
        if length <= Size(MAX_CLASS) && old(NoneFits(length)) then old(bufferList) + [raw.value] else old(bufferList)
      ensures length > Size(MAX_CLASS) ==>
        && buffer == raw && layout == old(layout)
        && large == if raw.Some? then old(large)[raw.value := length] else old(large)
    {
      hide Size, Tiled, Handed, NoneFits, NoneAbove;
      TiledLength(freeList, layout, bufferList);
      var c := FindClassId(length);
      if c < 0 {
        if raw.Some? {
          large := large[raw.value := length];
          largeBufferList := largeBufferList + {raw.value};
        }
        return raw;
      }
      NoneFitsMeans(length, c);
      var b := TakeFitting(c, raw);
      assert Fits(length, c);
      return Some(b);
    }

    // Takes back a buffer that was handed out. The blocks go on tiling the chunks if and only if the
    // length is of the class it was handed out for; otherwise the block is in the wrong free list.
    method FreeManagedBuffer(buffer: nat, length: nat)
      requires Valid()
      requires if length > Size(MAX_CLASS) then buffer in large else buffer in Handed(layout)
      modifies this
      ensures length > Size(MAX_CLASS) ==> Valid() && large == old(large) - {buffer} && layout == old(layout)
      ensures length <= Size(MAX_CLASS) ==>
        && large == old(large) && bufferList == old(bufferList)
        && Stacks(freeList, layout) && Classes(layout) && Handed(layout) == Handed(old(layout)) - {buffer}
        && (Valid() <==> Fits(length, Handed(old(layout))[buffer]))
    {
      hide Size, Tiled, Stacks;
      var c := FindClassId(length);
      if c < 0 {
        large := large - {buffer};
        largeBufferList := largeBufferList - {buffer};
        return;
      }
      TiledLength(freeList, layout, bufferList);
      OneFits(length, c, Handed(layout)[buffer]);
      GiveStacks(freeList, layout, buffer, c);
      GiveKeeps(freeList, layout, bufferList, buffer, c);
      layout := layout[buffer := Piece(c, true)];
      freeList := freeList[c := freeList[c] + [buffer]];
    }
  }

  // The class a length is served from.
  ghost predicate Fits(length: nat, c: nat) {
    c <= MAX_CLASS && length <= Size(c) && forall d | 0 <= d < c :: Size(d) < length
  }

  lemma OneFits(length: nat, c: nat, d: nat)
    requires Fits(length, c) && d <= MAX_CLASS
    ensures Fits(length, d) <==> c == d
  {
    hide Size;
  }

  lemma FitsAbove(length: nat, c: nat)
    requires Fits(length, c)
    ensures forall d | 0 <= d <= MAX_CLASS :: length <= Size(d) <==> c <= d
  {
    hide Size;
    forall d | c < d <= MAX_CLASS ensures Size(c) < Size(d) { SizesGrow(c, d); }
  }

  lemma TiledLength(free: seq<seq<nat>>, L: Layout, chunks: seq<nat>)
    requires Tiled(free, L, chunks)
    ensures |free| == MAX_CLASS + 1 && Stacks(free, L) && Classes(L)
  {}

  lemma OneMoreChunk(n: nat)
    ensures CHUNK * n + CHUNK == CHUNK * (n + 1)
  {}

  // A chunk of new memory leaves the blocks inside the chunks there were.
  lemma ChunkContained(L: Layout, chunks: seq<nat>, raw: nat)
    requires Classes(L) && Contained(L, chunks) && forall i | 0 <= i < |chunks| ::
      raw + CHUNK <= chunks[i] || chunks[i] + CHUNK <= raw
    ensures Contained(L, chunks + [raw])
    ensures forall b | b in L :: b + Size(L[b].cls) <= raw || raw + CHUNK <= b
  {
    hide Size;
    forall b | b in L
      ensures (exists j :: 0 <= j < |chunks + [raw]| && Inside(b, Size(L[b].cls), (chunks + [raw])[j]))
              && (b + Size(L[b].cls) <= raw || raw + CHUNK <= b)
    {
      var j :| 0 <= j < |chunks| && Inside(b, Size(L[b].cls), chunks[j]);
      assert (chunks + [raw])[j] == chunks[j];
      assert Inside(b, Size(L[b].cls), (chunks + [raw])[j]);
    }
  }

  // Offsets are multiples of the block size, and so is the chunk.
  lemma OffsetFits(offset: nat)
    requires offset < CHUNK && offset % Size(MAX_CLASS) == 0
    ensures offset + Size(MAX_CLASS) <= CHUNK && (offset + Size(MAX_CLASS)) % Size(MAX_CLASS) == 0
  {
    TopSize();
    var q := offset / Size(MAX_CLASS);
    assert Size(MAX_CLASS) == 268435456;
  }
}
