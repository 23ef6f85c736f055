/** The parser's memory pool: chunks that are never moved, blocks handed out from the last chunk, and
    the two string operations built on them. Strings are C strings, read up to their first NUL. */
module Arena {
  import opened Wrappers

  const DEFAULT_POOL_SIZE: nat := 4096
  const NUL: char := '\0'

  // ---------------------------------------------------------------- C strings

  /** The characters before the first NUL. */
  function CStr(s: seq<char>): (t: seq<char>)
    requires NUL in s
    ensures |t| < |s| && t == s[..|t|] && s[|t|] == NUL && NUL !in t
  {
    if s[0] == NUL then [] else [s[0]] + CStr(s[1..])
  }

  /** A string ends at its first NUL: nothing behind it matters. */
  lemma {:induction false} CStrUnique(s: seq<char>, n: nat)
    requires n < |s| && s[n] == '\0' && '\0' !in s[..n]
    ensures NUL in s && CStr(s) == s[..n]
  {
    var m := |CStr(s)|;
    assert forall i :: 0 <= i < n ==> s[i] == s[..n][i];
    assert forall i :: 0 <= i < m ==> s[i] == CStr(s)[i];
  }

  /** A `const char*`: nothing, or a place in some buffer, which may be a chunk of the pool. */
  datatype Pointer = Null | At(buf: array<char>, off: nat) {
    ghost predicate Terminated()
      reads if At? then {buf} else {}
    {
      At? && off < buf.Length && NUL in buf[off..]
    }

    ghost function Text(): seq<char>
      requires Terminated()
      reads if At? then {buf} else {}
    {
      CStr(buf[off..])
    }

    /** What the pointer adds to a concatenation: a null pointer adds nothing. */
    ghost function Part(): seq<char>
      reads if At? then {buf} else {}
    {
      if Terminated() then Text() else []
    }
  }

  method StrLen(p: Pointer) returns (n: nat)
    requires p.Terminated()
    ensures n == |p.Text()|
  {
    ghost var t := p.Text();
    assert p.buf[p.off + |t|] == p.buf[p.off..][|t|];
    n := 0;
    while p.buf[p.off + n] != NUL
      invariant n <= |t|
      decreases |t| - n
    {
      n := n + 1;
    }
    assert p.buf[p.off + n] == p.buf[p.off..][n];
    assert forall k :: 0 <= k < |t| ==> t[k] != NUL && p.buf[p.off..][k] == t[k];
  }

  /** `memcpy` between regions that do not overlap. */
  method Copy(dst: array<char>, at: nat, src: array<char>, from: nat, n: nat)
    requires at + n <= dst.Length && from + n <= src.Length
    requires dst != src || from + n <= at || at + n <= from
    modifies dst
    ensures dst[at..at + n] == old(src[from..from + n])
    ensures forall k :: 0 <= k < dst.Length && !(at <= k < at + n) ==> dst[k] == old(dst[k])
  {
    var i := 0;
    while i < n
      invariant i <= n
      invariant forall k :: at <= k < at + i ==> dst[k] == old(src[k - at + from])
      invariant forall k :: 0 <= k < dst.Length && !(at <= k < at + i) ==> dst[k] == old(dst[k])
    {
      dst[at + i] := src[from + i];
      i := i + 1;
    }
  }

  /** A copy of the string `s`, with its NUL, at `at`. */
  method CopyString(dst: array<char>, at: nat, s: Pointer, len: nat)
    requires s.Terminated() && len == |s.Text()| + 1 && at + len <= dst.Length
    requires dst != s.buf || s.off + len <= at
    modifies dst
    ensures dst[at..at + len - 1] == old(s.Text()) && dst[at + len - 1] == NUL
    ensures forall k :: 0 <= k < dst.Length && !(at <= k < at + len) ==> dst[k] == old(dst[k])
  {
    ghost var source := s.buf[s.off..s.off + len];
    assert source[..len - 1] == s.Text();
    Copy(dst, at, s.buf, s.off, len);
    assert forall k :: 0 <= k < len ==> dst[at + k] == source[k];
    dst[at + len - 1] := NUL;
    assert dst[at..at + len - 1] == source[..len - 1];
  }

  /** Strings one after the other. */
  ghost function Flat(parts: seq<seq<char>>): seq<char> {
    if parts == [] then [] else Flat(parts[..|parts| - 1]) + parts[|parts| - 1]
  }

  lemma {:induction false} FlatNext(parts: seq<seq<char>>, i: nat)
    requires i < |parts|
    ensures Flat(parts[..i + 1]) == Flat(parts[..i]) + parts[i]
    ensures |Flat(parts[..i + 1])| <= |Flat(parts)|
    decreases |parts| - i
  {
    assert parts[..i + 1][..i] == parts[..i];
    if i + 1 < |parts| {
      FlatNext(parts, i + 1);
    } else {
      assert parts[..i + 1] == parts;
    }
  }

  lemma {:induction false} FlatNoNul(parts: seq<seq<char>>)
    requires forall t :: t in parts ==> NUL !in t
    ensures NUL !in Flat(parts)
  {
    if parts != [] {
      FlatNoNul(parts[..|parts| - 1]);
    }
  }

  /** What the arguments hold now. */
  ghost function Parts(args: seq<Pointer>): (ts: seq<seq<char>>)
    reads set a | a in args && a.At? :: a.buf
    ensures |ts| == |args| && forall i :: 0 <= i < |args| ==> ts[i] == args[i].Part()
  {
    if args == [] then [] else Parts(args[..|args| - 1]) + [args[|args| - 1].Part()]
  }

  /** A string is read the same from a buffer that agrees with `before` up to its NUL. */
  lemma SameText(p: Pointer, before: seq<char>)
    requires p.At? && |before| == p.buf.Length && p.off < |before| && NUL in before[p.off..]
    requires forall k :: p.off <= k <= p.off + |CStr(before[p.off..])| ==> p.buf[k] == before[k]
    ensures p.Terminated() && p.Text() == CStr(before[p.off..])
  {
    var n := |CStr(before[p.off..])|;
    assert forall k :: 0 <= k <= n ==> p.buf[p.off..][k] == before[p.off..][k];
    assert p.buf[p.off..][..n] == before[p.off..][..n];
    CStrUnique(p.buf[p.off..], n);
  }

  /** The first pass of `pool_strcat_n`. */
  method TotalLen(args: seq<Pointer>) returns (n: nat)
    requires forall a :: a in args ==> a.Null? || a.Terminated()
    ensures n == |Flat(Parts(args))|
  {
    ghost var parts := Parts(args);
    n := 0;
    for i := 0 to |args|
      invariant n == |Flat(parts[..i])|
    {
      FlatNext(parts, i);
      if args[i].At? {
        var len := StrLen(args[i]);
        n := n + len;
      }
    }
    assert parts[..|args|] == parts;
  }

  /** One turn of the second pass: the argument `s`, which reads `t`, goes to `pos`. */
  method AppendPart(dst: array<char>, pos: nat, s: Pointer, ghost t: seq<char>) returns (end: nat)
    requires s.Null? ==> t == []
    requires s.At? ==> s.Terminated() && s.Text() == t && (s.buf == dst ==> s.off + |t| < pos)
    requires pos + |t| <= dst.Length
    modifies dst
    ensures end == pos + |t| && dst[pos..end] == t
    ensures forall k :: 0 <= k < pos ==> dst[k] == old(dst[k])
  {
    end := pos;
    if s.At? {
      var len := StrLen(s);
      assert s.buf[s.off..s.off + len] == t;
      Copy(dst, pos, s.buf, s.off, len);
      end := pos + len;
    }
  }

  /** The second pass. The arguments may lie in the buffer that is written, in front of `at`. */
  method JoinInto(dst: array<char>, at: nat, args: seq<Pointer>)
    requires forall a :: a in args && a.At? ==> a.Terminated() && (a.buf == dst ==> a.off + |a.Text()| < at)
    requires at + |Flat(Parts(args))| < dst.Length
    modifies dst
    ensures var t := old(Flat(Parts(args))); dst[at..at + |t|] == t && dst[at + |t|] == NUL
    ensures forall k :: 0 <= k < at ==> dst[k] == old(dst[k])
  {
    hide CStr, Parts, Flat;
    ghost var before, parts := dst[..], Parts(args);
    var pos := at;
    assert parts[..0] == [] && Flat([]) == [] by { FlatEmpty(); }
    for i := 0 to |args|
      invariant pos == at + |Flat(parts[..i])| < dst.Length
      invariant dst[at..pos] == Flat(parts[..i])
      invariant forall k :: 0 <= k < at ==> dst[k] == before[k]
    {
      FlatNext(parts, i);
      if args[i].At? && args[i].buf == dst {
        SameText(args[i], before);
      }
      ghost var done := dst[at..pos];
      pos := AppendPart(dst, pos, args[i], parts[i]);
      assert dst[at..pos] == done + parts[i];
    }
    assert parts[..|args|] == parts;
    dst[pos] := NUL;
  }

  lemma FlatEmpty()
    ensures Flat([]) == []
  {}

  // ---------------------------------------------------------------- the pool

  class Chunk {
    const data: array<char>
    var used: nat
    var next: Chunk?
    ghost var freed: bool

    constructor (minSize: nat)
      ensures used == 0 && next == null && !freed && fresh(data)
      ensures data.Length == if DEFAULT_POOL_SIZE > minSize then DEFAULT_POOL_SIZE else minSize
    {
      data := new char[if DEFAULT_POOL_SIZE > minSize then DEFAULT_POOL_SIZE else minSize];
      used, next, freed := 0, null, false;
    }
  }

  /** A block that was handed out: where it lies, and the string that was put there. */
  datatype Block = Block(chunk: nat, off: nat, size: nat, text: Option<seq<char>>) {
    /** The string of the block is there. */
    ghost predicate Holds(data: seq<char>) {
      text.Some? ==>
        && size == |text.value| + 1 && off + size <= |data| && NUL !in text.value
        && data[off..off + |text.value|] == text.value && data[off + |text.value|] == NUL
    }

    /** A buffer that agrees on the block still holds the string. */
    lemma StillHolds(before: seq<char>, after: seq<char>)
      requires Holds(before) && |before| == |after|
      requires text.Some? ==> forall k :: off <= k < off + size ==> after[k] == before[k]
      ensures Holds(after)
    {
      if text.Some? {
        assert after[off..off + |text.value|] == before[off..off + |text.value|];
      }
    }
  }

  lemma Filled(b: Block, data: array<char>, t: seq<char>)
    requires b.text == Some(t) && b.size == |t| + 1 && b.off + b.size <= data.Length && NUL !in t
    requires data[b.off..b.off + b.size - 1] == t && data[b.off + b.size - 1] == NUL
    ensures b.Holds(data[..])
  {
    assert data[..][b.off..b.off + |t|] == data[b.off..b.off + b.size - 1];
  }

  /** Where a block holds a string, a pointer to the block reads that string. */
  lemma HoldsIsText(b: Block, data: array<char>)
    requires b.text.Some? && b.Holds(data[..])
    ensures At(data, b.off).Terminated() && At(data, b.off).Text() == b.text.value
  {
    var n := |b.text.value|;
    assert data[b.off..][..n] == data[..][b.off..b.off + n];
    CStrUnique(data[b.off..], n);
  }

  class Pool {
    var head: Chunk?
    var current: Chunk?
    ghost var chunks: seq<Chunk>
    ghost var blocks: seq<Block>

    ghost function Chunks(): set<Chunk>
      reads this`chunks
    {
      set c | c in chunks
    }

    ghost function Buffers(): set<array<char>>
      reads this`chunks
    {
      set c | c in chunks :: c.data
    }

    /** The chain runs from `head` through every chunk, in order, and ends at `current`. */
    ghost predicate Chained()
      reads this`head, this`current, this`chunks, Chunks()`next
    {
      && (chunks == [] ==> head == null && current == null)
      && (chunks != [] ==> head == chunks[0] && current == chunks[|chunks| - 1])
      && (forall i {:trigger chunks[i].next} :: 0 <= i < |chunks| ==>
            chunks[i].next == if i + 1 < |chunks| then chunks[i + 1] else null)
    }

    /** Chunks and their buffers are separate, and none was given back. */
    ghost predicate Separate()
      reads this`chunks, Chunks()
    {
      && (forall i, j :: 0 <= i < j < |chunks| ==> chunks[i] != chunks[j] && chunks[i].data != chunks[j].data)
      && (forall i :: 0 <= i < |chunks| ==> chunks[i].used <= chunks[i].data.Length && !chunks[i].freed)
    }

    /** Every block lies in the used part of its chunk, and behind all earlier blocks of that chunk. */
    ghost predicate Disjoint()
      reads this`chunks, this`blocks, Chunks()`used
    {
      && (forall i :: 0 <= i < |blocks| ==>
            blocks[i].chunk < |chunks| && blocks[i].off + blocks[i].size <= chunks[blocks[i].chunk].used)
      && (forall i, j :: 0 <= i < j < |blocks| && blocks[i].chunk == blocks[j].chunk ==>
            blocks[i].off + blocks[i].size <= blocks[j].off)
    }

    /** Every string that was put into a block is still there. */
    ghost predicate AllHold()
      reads this`chunks, this`blocks, Chunks(), Buffers()
    {
      forall i :: 0 <= i < |blocks| && blocks[i].chunk < |chunks| ==> blocks[i].Holds(chunks[blocks[i].chunk].data[..])
    }

    ghost predicate Valid()
      reads this, Chunks(), Buffers()
    {
      Chained() && Separate() && Disjoint() && AllHold()
    }

    constructor ()
      ensures Valid() && chunks == [] && blocks == []
    {
      head, current, chunks, blocks := null, null, [], [];
    }

    /** A pointer the caller may pass in: null, or a terminated string that is not in the unused part
        of a chunk. */
    ghost predicate Readable(p: Pointer)
      reads this`chunks, Chunks()`used, if p.At? then {p.buf} else {}
    {
      p.At? ==> p.Terminated() && forall c :: c in chunks && c.data == p.buf ==> p.off + |p.Text()| < c.used
    }

    /** A new chunk at the end of the chain. */
    method Grow(size: nat)
      requires Valid()
      modifies this`head, this`current, this`chunks, Chunks()`next
      ensures Valid() && blocks == old(blocks)
      ensures |chunks| == |old(chunks)| + 1 && chunks[..|old(chunks)|] == old(chunks)
      ensures fresh(current) && fresh(current.data) && current.used == 0
      ensures current.data.Length == if size < 4096 then 4096 else size
    {
      var c := new Chunk(size);
      if head == null {
        head := c;
      } else {
        current.next := c;
      }
      current := c;
      chunks := chunks + [c];
    }

    /** The next `size` places of the current chunk. */
    method Take(size: nat) returns (p: Pointer)
      requires Valid() && current != null && current.used + size <= current.data.Length
      modifies this`blocks, current`used
      ensures Valid() && p == At(current.data, old(current.used)) && current.used == p.off + size
      ensures blocks == old(blocks) + [Block(|chunks| - 1, p.off, size, None)]
    {
      p := At(current.data, current.used);
      current.used := current.used + size;
      blocks := blocks + [Block(|chunks| - 1, p.off, size, None)];
    }

    /** `pool_alloc`. */
    method Alloc(size: nat) returns (p: Pointer)
      requires Valid()
      modifies this, Chunks()
      ensures p.At? && Valid() && chunks != [] && blocks == old(blocks) + [Block(|chunks| - 1, p.off, size, None)]
      ensures p.buf == current.data && p.off + size == current.used
      ensures chunks == old(chunks) ==> p.off == old(current.used)
      ensures chunks != old(chunks) ==>
                && |chunks| == |old(chunks)| + 1 && chunks[..|old(chunks)|] == old(chunks)
                && fresh(current) && fresh(current.data)
      ensures forall c :: c in old(chunks) && c != current ==> c.used == old(c.used)
    {
      hide AllHold, Disjoint, Separate;
      if current == null || current.used + size > current.data.Length {
        Grow(size);
      }
      p := Take(size);
    }

    /** The last block lies at `p` and has nothing in it yet. */
    ghost predicate Open(p: Pointer, size: nat)
      reads this
    {
      && chunks != [] && blocks != [] && p.At? && p.buf == chunks[|chunks| - 1].data
      && blocks[|blocks| - 1] == Block(|chunks| - 1, p.off, size, None)
    }

    /** The string is in the last block: say so. */
    ghost method Record(text: seq<char>)
      requires Chained() && Separate() && Disjoint() && blocks != [] && chunks != []
      requires blocks[|blocks| - 1].chunk == |chunks| - 1
      requires forall i :: 0 <= i < |blocks| - 1 && blocks[i].chunk < |chunks| ==>
                 blocks[i].Holds(chunks[blocks[i].chunk].data[..])
      requires blocks[|blocks| - 1].(text := Some(text)).Holds(chunks[|chunks| - 1].data[..])
      modifies this`blocks
      ensures Valid()
      ensures blocks == old(blocks)[..|old(blocks)| - 1] + [old(blocks)[|old(blocks)| - 1].(text := Some(text))]
    {
      blocks := blocks[..|blocks| - 1] + [blocks[|blocks| - 1].(text := Some(text))];
      assert Disjoint();
      forall i | 0 <= i < |blocks| && blocks[i].chunk < |chunks|
        ensures blocks[i].Holds(chunks[blocks[i].chunk].data[..])
      {
        assert i < |blocks| - 1 ==> blocks[i] == old(blocks[i]);
      }
    }

    /** The strings of all blocks but the last, where the last chunk holds `last`. */
    ghost predicate EarlierHold(last: seq<char>)
      reads this`chunks, this`blocks, Chunks(), Buffers()
    {
      forall i :: 0 <= i < |blocks| - 1 && blocks[i].chunk < |chunks| ==>
        blocks[i].Holds(if blocks[i].chunk == |chunks| - 1 then last else chunks[blocks[i].chunk].data[..])
    }

    lemma EarlierStillHold(p: Pointer, size: nat, before: seq<char>)
      requires Disjoint() && Open(p, size) && EarlierHold(before) && |before| == p.buf.Length && p.off <= p.buf.Length
      requires forall k :: 0 <= k < p.off ==> p.buf[k] == before[k]
      ensures forall i :: 0 <= i < |blocks| - 1 && blocks[i].chunk < |chunks| ==>
                blocks[i].Holds(chunks[blocks[i].chunk].data[..])
    {
      hide Block.Holds;
      forall i | 0 <= i < |blocks| - 1 && blocks[i].chunk == |chunks| - 1
        ensures blocks[i].Holds(chunks[blocks[i].chunk].data[..])
      {
        blocks[i].StillHolds(before, p.buf[..]);
      }
    }

    /** The open block was filled with `text`, and nothing before it was touched: close it. */
    ghost method Seal(p: Pointer, text: seq<char>, before: seq<char>)
      requires Chained() && Separate() && Disjoint() && Open(p, |text| + 1)
      requires EarlierHold(before) && |before| == p.buf.Length && p.off + |text| < p.buf.Length && NUL !in text
      requires forall k :: 0 <= k < p.off ==> p.buf[k] == before[k]
      requires p.buf[p.off..p.off + |text|] == text && p.buf[p.off + |text|] == NUL
      modifies this`blocks
      ensures Valid() && p.Terminated() && p.Text() == text
      ensures blocks == old(blocks)[..|old(blocks)| - 1] + [Block(|chunks| - 1, p.off, |text| + 1, Some(text))]
    {
      hide CStr, Block.Holds, EarlierHold, Disjoint;
      EarlierStillHold(p, |text| + 1, before);
      Filled(blocks[|blocks| - 1].(text := Some(text)), p.buf, text);
      Record(text);
      HoldsIsText(blocks[|blocks| - 1], p.buf);
    }

    /** Fills the open block with the string `s`. */
    method Put(p: Pointer, s: Pointer, len: nat)
      requires Valid() && Open(p, len) && s.Terminated() && len == |s.Text()| + 1
      requires p.buf != s.buf || s.off + len <= p.off
      modifies this`blocks, p.buf
      ensures Valid() && p.Terminated() && p.Text() == old(s.Text())
      ensures blocks == old(blocks)[..|old(blocks)| - 1] + [Block(|chunks| - 1, p.off, len, Some(p.Text()))]
    {
      hide CStr, Block.Holds;
      ghost var before := p.buf[..];
      CopyString(p.buf, p.off, s, len);
      Seal(p, old(s.Text()), before);
    }

    /** Fills the open block with the concatenation of `args`. */
    method PutJoined(p: Pointer, args: seq<Pointer>, total: nat)
      requires Valid() && Open(p, total + 1) && total == |Flat(Parts(args))|
      requires forall a :: a in args && a.At? ==> a.Terminated() && (a.buf == p.buf ==> a.off + |a.Text()| < p.off)
      modifies this`blocks, p.buf
      ensures Valid() && p.Terminated() && p.Text() == old(Flat(Parts(args)))
      ensures blocks == old(blocks)[..|old(blocks)| - 1] + [Block(|chunks| - 1, p.off, total + 1, Some(p.Text()))]
    {
      hide CStr, Block.Holds, Flat, Parts;
      ghost var before := p.buf[..];
      JoinInto(p.buf, p.off, args);
      FlatNoNul(old(Parts(args)));
      Seal(p, old(Flat(Parts(args))), before);
    }

    /** `pool_strdup`: a copy of the string, in a block of its own. Since the pool stays valid and only
        gains a block, every earlier string is still where it was. */
    method StrDup(s: Pointer) returns (p: Pointer)
      requires Valid() && Readable(s)
      modifies this, Chunks(), Buffers()
      ensures Valid() && old(chunks) <= chunks
      ensures s.Null? ==> p.Null? && blocks == old(blocks)
      ensures s.At? ==> p.Terminated() && p.Text() == old(s.Text())
      ensures s.At? ==> chunks != [] && p.buf == chunks[|chunks| - 1].data
      ensures s.At? ==> blocks == old(blocks) + [Block(|chunks| - 1, p.off, |p.Text()| + 1, Some(p.Text()))]
    {
      hide AllHold, Disjoint, CStr;
      if s.Null? {
        return Null;
      }
      var len := StrLen(s);
      len := len + 1;
      p := Alloc(len);
      Put(p, s, len);
    }

    /** `pool_strcat_n`: the concatenation of the arguments, in a block of its own, also when arguments
        are strings of this pool. */
    method StrCatN(args: seq<Pointer>) returns (p: Pointer)
      requires Valid() && forall a :: a in args ==> Readable(a)
      modifies this, Chunks(), Buffers()
      ensures Valid() && old(chunks) <= chunks && chunks != []
      ensures p.Terminated() && p.Text() == old(Flat(Parts(args))) && p.buf == chunks[|chunks| - 1].data
      ensures blocks == old(blocks) + [Block(|chunks| - 1, p.off, |p.Text()| + 1, Some(p.Text()))]
    {
      hide AllHold, Disjoint, CStr, Flat, Parts, Separate;
      var total := TotalLen(args);
      p := Alloc(total + 1);
      assert Flat(Parts(args)) == old(Flat(Parts(args)));
      PutJoined(p, args, total);
    }

    /** A string the pool handed out reads as it did when it was made, whatever was made since. */
    lemma StringStays(i: nat)
      requires Valid() && i < |blocks| && blocks[i].text.Some?
      ensures var p := At(chunks[blocks[i].chunk].data, blocks[i].off);
              p.Terminated() && p.Text() == blocks[i].text.value
    {
      HoldsIsText(blocks[i], chunks[blocks[i].chunk].data);
    }

    /** Two blocks share no place. */
    lemma BlocksApart(i: nat, j: nat, k: nat, l: nat)
      requires Valid() && i < |blocks| && j < |blocks| && i != j && k < blocks[i].size && l < blocks[j].size
      ensures var b, c := blocks[i], blocks[j];
              && b.off + k < chunks[b.chunk].data.Length
              && (chunks[b.chunk].data != chunks[c.chunk].data || b.off + k != c.off + l)
    {
      var b, c := blocks[i], blocks[j];
      assert chunks[b.chunk].used <= chunks[b.chunk].data.Length;
      if b.chunk == c.chunk {
        if i < j {
          assert b.off + b.size <= c.off;
        } else {
          assert c.off + c.size <= b.off;
        }
      }
    }

    /** `cleanup_pool`: every chunk goes, and an empty pool is left. */
    method Cleanup()
      requires Valid()
      modifies this, Chunks()
      ensures Valid() && chunks == [] && blocks == []
      ensures forall c :: c in old(chunks) ==> c.freed
    {
      hide AllHold, Disjoint;
      FreeChain(chunks, head);
      head, current := null, null;
      chunks, blocks := [], [];
      EmptyIsValid();
    }

    lemma EmptyIsValid()
      requires head == null && current == null && chunks == [] && blocks == []
      ensures Valid()
    {}
  }

  /** The chain of chunks in linked order. */
  ghost predicate Linked(cs: seq<Chunk>, first: Chunk?)
    reads set c | c in cs
  {
    && (if cs == [] then first == null else first == cs[0])
    && forall i {:trigger cs[i].next} :: 0 <= i < |cs| ==> cs[i].next == if i + 1 < |cs| then cs[i + 1] else null
  }

  /** Walks the chain and frees every chunk once, without reading a freed one. */
  method FreeChain(ghost cs: seq<Chunk>, first: Chunk?)
    requires Linked(cs, first)
    requires forall i, j :: 0 <= i < j < |cs| ==> cs[i] != cs[j]
    requires forall i :: 0 <= i < |cs| ==> !cs[i].freed
    modifies (set c | c in cs)`freed
    ensures forall i :: 0 <= i < |cs| ==> cs[i].freed
  {
    var c := first;
    ghost var i := 0;
    while c != null
      invariant i <= |cs| && c == if i < |cs| then cs[i] else null
      invariant forall j :: 0 <= j < |cs| ==> cs[j].freed == (j < i)
      decreases |cs| - i
    {
      assert !c.freed;
      var next := c.next;
      c.freed := true;
      c := next;
      i := i + 1;
    }
  }
}
