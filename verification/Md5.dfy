/** MD5 buffering: md5_init, md5_append and md5_finish (lib/md5.cc).

    The compression of one 64-byte block, md5_process, is the parameter `process`:
    what is proved holds for every such function.
 */
module Md5 {
  import opened Machine

  /** The four digest words. */
  datatype Words = Words(a: int, b: int, c: int, d: int)

  const INITIAL := Words(0x67452301, 0xefcdab89, 0x98badcfe, 0x10325476)

  // ----- Reference (sections 3.1 to 3.5 of RFC 1321) ------------------------

  /** The block function folded over a whole number of blocks. */
  function Fold(process: (Words, seq<int>) -> Words, abcd: Words, text: seq<int>): Words
    requires |text| % 64 == 0
    decreases |text|
  {
    if |text| == 0 then abcd else Fold(process, process(abcd, text[..64]), text[64..])
  }

  /** Four bytes of a word, low-order byte first. */
  function WordBytes(w: int): (r: seq<int>)
    ensures |r| == 4 && forall i :: 0 <= i < 4 ==> 0 <= r[i] < 0x100
    ensures 0 <= w < WORD ==> w == r[0] + 0x100 * r[1] + 0x1_0000 * r[2] + 0x100_0000 * r[3]
  {
    var w1 := w / 0x100;
    var w2 := w1 / 0x100;
    [w % 0x100, w1 % 0x100, w2 % 0x100, w2 / 0x100 % 0x100]
  }

  /** The length in bits as two words, low-order word first. */
  function LengthBytes(nbytes: nat): (r: seq<int>)
    ensures |r| == 8
  {
    WordBytes(Low(nbytes)) + WordBytes(High(nbytes))
  }

  /** The value of eight bytes, low-order byte first. */
  function LittleEndian(r: seq<int>): int {
    if r == [] then 0 else r[0] + 0x100 * LittleEndian(r[1..])
  }

  /** The length bytes hold the bit count modulo 2^64. */
  lemma LengthValue(n: nat)
    ensures forall i :: 0 <= i < 8 ==> 0 <= LengthBytes(n)[i] < 0x100
    ensures LittleEndian(LengthBytes(n)) == 8 * n % (WORD * WORD)
  {
    var r := LengthBytes(n);
    var lo, hi := WordBytes(Low(n)), WordBytes(High(n));
    EightBytes(lo, hi);
    WordOf(n);
  }

  lemma EightBytes(lo: seq<int>, hi: seq<int>)
    requires |lo| == |hi| == 4
    ensures LittleEndian(lo + hi)
         == lo[0] + 0x100 * lo[1] + 0x1_0000 * lo[2] + 0x100_0000 * lo[3]
            + WORD * (hi[0] + 0x100 * hi[1] + 0x1_0000 * hi[2] + 0x100_0000 * hi[3])
  {
    var r := lo + hi;
    assert LittleEndian(r[8..]) == 0;
    forall i | 0 <= i < 8 ensures LittleEndian(r[i..]) == r[i] + 0x100 * LittleEndian(r[i + 1..]) {
      assert r[i..][1..] == r[i + 1..];
    }
    assert r[0..] == r;
  }

  lemma WordOf(n: nat)
    ensures Low(n) + WORD * High(n) == 8 * n % (WORD * WORD)
    ensures 0 <= Low(n) < WORD && 0 <= High(n) < WORD
  {
    var x := 8 * n;
    var q := x / WORD / WORD;
    assert x == WORD * (x / WORD) + Low(n);
    assert x / WORD == WORD * q + High(n);
    var rest := Low(n) + WORD * High(n);
    assert x == WORD * WORD * q + rest && 0 <= rest < WORD * WORD;
  }

  /** The initial state as bytes (section 3.3 of RFC 1321). */
  lemma InitialBytes()
    ensures DigestBytes(INITIAL)
         == [0x01, 0x23, 0x45, 0x67, 0x89, 0xab, 0xcd, 0xef, 0xfe, 0xdc, 0xba, 0x98, 0x76, 0x54, 0x32, 0x10]
  {
  }

  /** Bytes of padding: at least one, up to 56 modulo 64. */
  function PadLength(n: nat): (p: nat)
    ensures 1 <= p <= 64 && (n + p) % 64 == 56
  {
    (55 - n) % 64 + 1
  }

  function Zeros(n: nat): (z: seq<int>)
    ensures |z| == n
  {
    seq(n, i => 0)
  }

  lemma MultipleOf64(n: nat)
    requires n % 64 == 56
    ensures (n + 8) % 64 == 0
  {
  }

  /** The message padded once. */
  function Padded(message: seq<int>): (t: seq<int>)
    ensures |t| % 64 == 0
  {
    MultipleOf64(|message| + PadLength(|message|));
    message + [0x80] + Zeros(PadLength(|message|) - 1) + LengthBytes(|message|)
  }

  /** A one bit, as few zeros as lead to 56 modulo 64, and the bit count. */
  lemma PaddedForm(message: seq<int>)
    ensures var t := Padded(message);
            && |t| % 64 == 0 && |message| + 9 <= |t| <= |message| + 72 && message <= t && t[|message|] == 0x80
            && (forall i :: |message| < i < |t| - 8 ==> t[i] == 0)
            && LittleEndian(t[|t| - 8..]) == 8 * |message| % (WORD * WORD)
  {
    hide LengthBytes, LittleEndian, PadLength;
    var t := Padded(message);
    assert t[|t| - 8..] == LengthBytes(|message|);
    LengthValue(|message|);
  }

  function DigestBytes(w: Words): (r: seq<int>)
    ensures |r| == 16
  {
    WordBytes(w.a) + WordBytes(w.b) + WordBytes(w.c) + WordBytes(w.d)
  }

  /** The digest of a message, all at once. */
  function Digest(process: (Words, seq<int>) -> Words, message: seq<int>): seq<int> {
    DigestBytes(Fold(process, INITIAL, Padded(message)))
  }

  // ----- Folding ------------------------------------------------------------

  lemma {:induction false} FoldAppend(process: (Words, seq<int>) -> Words, abcd: Words, s: seq<int>, t: seq<int>)
    requires |s| % 64 == 0 && |t| % 64 == 0
    ensures |s + t| % 64 == 0
    ensures Fold(process, abcd, s + t) == Fold(process, Fold(process, abcd, s), t)
    decreases |s|
  {
    if |s| == 0 {
      assert s + t == t;
    } else {
      assert (s + t)[..64] == s[..64] && (s + t)[64..] == s[64..] + t;
      FoldAppend(process, process(abcd, s[..64]), s[64..], t);
    }
  }

  lemma FoldOne(process: (Words, seq<int>) -> Words, abcd: Words, s: seq<int>, block: seq<int>)
    requires |s| % 64 == 0 && |block| == 64
    ensures |s + block| % 64 == 0
    ensures Fold(process, abcd, s + block) == process(Fold(process, abcd, s), block)
  {
    FoldAppend(process, abcd, s, block);
    assert block[..64] == block && block[64..] == [];
    assert Fold(process, process(Fold(process, abcd, s), block), []) == process(Fold(process, abcd, s), block);
  }

  /** The part of a message that fills whole blocks. */
  function Whole(n: nat): (w: nat)
    ensures w <= n && w % 64 == 0 && n - w == n % 64
  {
    n - n % 64
  }

  // ----- The state ----------------------------------------------------------

  class Md5State {
    var count0: int
    var count1: int
    var abcd: Words
    const buf: array<int>
    const process: (Words, seq<int>) -> Words
    /** Everything appended so far. */
    ghost var message: seq<int>

    ghost predicate CountOk()
      reads this
    {
      count0 == Low(|message|) && count1 == High(|message|)
    }

    /** The blocks processed and the tail kept. */
    ghost predicate TextOk(text: seq<int>)
      reads this, buf
    {
      && buf.Length == 64
      && abcd == Fold(process, INITIAL, text[..Whole(|text|)])
      && buf[..|text| % 64] == text[Whole(|text|)..]
    }

    ghost predicate Valid()
      reads this, buf
    {
      CountOk() && TextOk(message)
    }

    /** md5_init. */
    constructor (process: (Words, seq<int>) -> Words)
      ensures Valid() && message == [] && this.process == process && fresh(buf)
    {
      count0, count1 := 0, 0;
      abcd := INITIAL;
      this.process := process;
      buf := new int[64];
      message := [];
    }

    /** memcpy into the buffer. */
    method Copy(offset: nat, data: seq<int>)
      requires offset + |data| <= buf.Length
      modifies buf
      ensures buf[..offset] == old(buf[..offset]) && buf[offset..offset + |data|] == data
    {
      var i := 0;
      while i < |data|
        invariant 0 <= i <= |data|
        invariant forall k :: 0 <= k < offset ==> buf[k] == old(buf[k])
        invariant forall k :: 0 <= k < i ==> buf[offset + k] == data[k]
      {
        buf[offset + i] := data[i];
        i := i + 1;
      }
    }

    /** The length update: 64-bit addition in two words. */
    method Count(nbytes: nat)
      requires CountOk() && 0 < nbytes <= INT_MAX
      modifies this`count0, this`count1
      ensures count0 == Low(|message| + nbytes) && count1 == High(|message| + nbytes)
    {
      hide Low, High;
      CarryAdds(|message|, nbytes);
      var nbits := Low(nbytes);
      count1 := Sum(count1, nbytes / 0x2000_0000);
      count0 := Sum(count0, nbits);
      if count0 < nbits { count1 := Sum(count1, 1); }
    }

    /** The initial partial block: fill the buffer and process it, if the data
        reaches that far. */
    method FillBuffer(data: seq<int>, offset: nat) returns (copied: nat, full: bool)
      requires TextOk(message) && offset == |message| % 64 > 0 && data != []
      modifies buf, this`abcd, this`message
      ensures copied <= |data| && message == old(message) + data[..copied]
      ensures full <==> offset + |data| >= 64
      ensures if full then copied == 64 - offset && |message| % 64 == 0 && abcd == Fold(process, INITIAL, message)
              else copied == |data| && TextOk(message)
    {
      copied := if offset + |data| > 64 then 64 - offset else |data|;
      ghost var text := message;
      var part := data[..copied];
      Copy(offset, part);
      message := text + part;
      full := offset + copied >= 64;
      if full {
        assert buf[..] == buf[..offset] + buf[offset..offset + copied];
        abcd := process(abcd, buf[..]);
        BlockFilled(process, text, part);
      } else {
        TailGrows(text, part);
        assert buf[..|message| % 64] == buf[..offset] + buf[offset..offset + copied];
      }
    }

    /** Full blocks straight from the data, and the rest into the buffer. */
    method Blocks(data: seq<int>)
      requires buf.Length == 64 && |message| % 64 == 0 && abcd == Fold(process, INITIAL, message)
      modifies buf, this`abcd, this`message
      ensures message == old(message) + data && TextOk(message)
    {
      var p, left := 0, |data|;
      while left >= 64
        invariant 0 <= p <= |data| && left == |data| - p
        invariant |message| % 64 == 0 && message == old(message) + data[..p]
        invariant abcd == Fold(process, INITIAL, message)
      {
        var block := data[p..p + 64];
        FoldOne(process, INITIAL, message, block);
        abcd := process(abcd, block);
        message := message + block;
        assert data[..p + 64] == data[..p] + block;
        p, left := p + 64, left - 64;
      }
      ghost var text := message;
      if left != 0 { Copy(0, data[p..]); }
      message := message + data[p..];
      assert data == data[..p] + data[p..];
      BlockStart(text, data[p..]);
    }

    /** md5_append of the first nbytes of data. */
    method Append(data: seq<int>, nbytes: int)
      requires Valid() && nbytes <= |data| && Fits(|message|, nbytes)
      modifies this, buf
      ensures Valid() && message == old(message) + (if nbytes > 0 then data[..nbytes] else [])
    {
      hide Low, High, Fold;
      var offset := count0 / 8 % 64;
      OffsetIs(|message|);
      if nbytes <= 0 { return; }
      var bytes := data[..nbytes];
      Count(nbytes);
      var copied, full := 0, true;
      if offset != 0 {
        copied, full := FillBuffer(bytes, offset);
      } else {
        assert message[..Whole(|message|)] == message;
      }
      if full {
        assert bytes == bytes[..copied] + bytes[copied..];
        Blocks(bytes[copied..]);
      }
    }
  }

  /** The int arithmetic of md5_append behind n bytes: the length is an int, and so
      is its sum with the bytes in the buffer, which is formed if there are any. */
  predicate Fits(n: nat, nbytes: int) {
    nbytes <= INT_MAX && (n % 64 == 0 || n % 64 + nbytes <= INT_MAX)
  }

  /** The bit count of n bytes in two 32-bit words. */
  function Low(n: nat): int { 8 * n % WORD }

  function High(n: nat): int { 8 * n / WORD % WORD }

  /** Addition of 32-bit words. */
  function Sum(a: int, b: int): int { (a + b) % WORD }

  lemma DivMod(x: int, q: int, r: int)
    requires x == WORD * q + r && 0 <= r < WORD
    ensures x / WORD == q && x % WORD == r
  {
  }

  lemma SumMod(a: int, b: int)
    ensures Sum(a % WORD, b) == Sum(a, b)
  {
    var q, r := a / WORD, a % WORD;
    var q', r' := (r + b) / WORD, (r + b) % WORD;
    DivMod(a + b, q + q', r');
  }

  lemma CarryAdds(n: nat, m: nat)
    requires 0 < m <= INT_MAX
    ensures Low(n + m) == Sum(Low(n), Low(m))
    ensures var high := Sum(High(n), m / 0x2000_0000);
            High(n + m) == if Low(n + m) < Low(m) then Sum(high, 1) else high
  {
    var qa, ra, qb, rb := 8 * n / WORD, 8 * n % WORD, m / 0x2000_0000, 8 * m % WORD;
    assert 8 * m == WORD * qb + rb by { assert m == 0x2000_0000 * qb + m % 0x2000_0000; }
    var c := if ra + rb >= WORD then 1 else 0;
    DivMod(8 * (n + m), qa + qb + c, ra + rb - c * WORD);
    DivMod(ra + rb, c, ra + rb - c * WORD);
    SumMod(qa, qb);
    SumMod(qa + qb, 1);
  }

  /** Behind whole blocks the tail starts at the front of the buffer. */
  lemma BlockStart(text: seq<int>, rest: seq<int>)
    requires |text| % 64 == 0 && |rest| < 64
    ensures Whole(|text + rest|) == |text| && |text + rest| % 64 == |rest|
    ensures (text + rest)[..|text|] == text && (text + rest)[|text|..] == rest
  {
  }

  lemma OffsetIs(n: nat)
    ensures Low(n) / 8 % 64 == n % 64
  {
    var q, r := n / 0x2000_0000, n % 0x2000_0000;
    DivMod(8 * n, q, 8 * r);
    assert n == 64 * (0x80_0000 * q) + r;
  }

  /** The new bytes fit behind the tail. */
  lemma TailGrows(text: seq<int>, data: seq<int>)
    requires |text| % 64 + |data| < 64
    ensures Whole(|text + data|) == Whole(|text|) && |text + data| % 64 == |text| % 64 + |data|
    ensures (text + data)[..Whole(|text|)] == text[..Whole(|text|)]
    ensures (text + data)[Whole(|text|)..] == text[Whole(|text|)..] + data
  {
  }

  lemma BlockFilled(process: (Words, seq<int>) -> Words, text: seq<int>, data: seq<int>)
    requires |text| % 64 + |data| == 64
    ensures |text + data| % 64 == 0
    ensures Fold(process, INITIAL, text + data)
         == process(Fold(process, INITIAL, text[..Whole(|text|)]), text[Whole(|text|)..] + data)
  {
    hide Fold;
    var w := Whole(|text|);
    assert |text[w..]| == |text| % 64;
    assert text + data == text[..w] + (text[w..] + data);
    FoldOne(process, INITIAL, text[..w], text[w..] + data);
  }

  // ----- Finishing ----------------------------------------------------------

  /** md5_finish: the digest is that of the whole message. */
  method Finish(pms: Md5State) returns (digest: seq<int>)
    requires pms.Valid()
    modifies pms, pms.buf
    ensures digest == Digest(pms.process, old(pms.message))
  {
    hide Fold, Low, High, WordBytes, PadLength, DigestBytes, Md5State.TextOk;
    ghost var message := pms.message;
    var pad := [0x80] + Zeros(63);
    var data := WordBytes(pms.count0) + WordBytes(pms.count1);
    assert data == LengthBytes(|message|);
    var length := (55 - pms.count0 / 8) % 64 + 1;
    PadLengthIs(|message|);
    hide Md5State.CountOk, LengthBytes;
    pms.Append(pad, length);
    assert pad[..length] == [0x80] + Zeros(length - 1);
    pms.Append(data, 8);
    assert data[..8] == data;
    assert pms.message == Padded(message);
    WholeFolded(pms);
    digest := DigestBytes(pms.abcd);
  }

  lemma WholeFolded(pms: Md5State)
    requires pms.TextOk(pms.message) && |pms.message| % 64 == 0
    ensures pms.abcd == Fold(pms.process, INITIAL, pms.message)
  {
    assert pms.message[..Whole(|pms.message|)] == pms.message;
  }

  lemma PadLengthIs(n: nat)
    ensures (55 - Low(n) / 8) % 64 + 1 == PadLength(n)
  {
    hide Low;
    OffsetIs(n);
    PadDepends(Low(n) / 8, n);
  }

  lemma PadDepends(x: int, n: int)
    requires x % 64 == n % 64
    ensures (55 - x) % 64 == (55 - n) % 64
  {
    assert x - n == 64 * (x / 64 - n / 64);
  }

  function Concat(chunks: seq<seq<int>>): seq<int> {
    if chunks == [] then [] else chunks[0] + Concat(chunks[1..])
  }

  lemma {:induction false} ConcatSnoc(chunks: seq<seq<int>>, c: seq<int>)
    ensures Concat(chunks + [c]) == Concat(chunks) + c
  {
    if chunks == [] {
      assert chunks + [c] == [c] && [c][1..] == [];
    } else {
      assert (chunks + [c])[1..] == chunks[1..] + [c];
      ConcatSnoc(chunks[1..], c);
    }
  }

  /** However the message is cut into appends, the digest is that of the message. */
  method DigestInPieces(process: (Words, seq<int>) -> Words, chunks: seq<seq<int>>) returns (digest: seq<int>)
    requires forall i :: 0 <= i < |chunks| ==> Fits(|Concat(chunks[..i])|, |chunks[i]|)
    ensures digest == Digest(process, Concat(chunks))
  {
    hide Digest, Concat, Md5State.CountOk, Md5State.TextOk;
    var pms := new Md5State(process);
    var i := 0;
    assert Concat(chunks[..0]) == [] by { ConcatNone(); }
    while i < |chunks|
      invariant 0 <= i <= |chunks| && pms.Valid() && pms.process == process
      invariant pms.message == Concat(chunks[..i]) && fresh(pms) && fresh(pms.buf)
    {
      assert chunks[..i + 1] == chunks[..i] + [chunks[i]];
      ConcatSnoc(chunks[..i], chunks[i]);
      pms.Append(chunks[i], |chunks[i]|);
      assert chunks[i][..|chunks[i]|] == chunks[i];
      i := i + 1;
    }
    assert chunks[..i] == chunks;
    digest := Finish(pms);
  }

  lemma ConcatNone()
    ensures Concat([]) == []
  {
  }
}
