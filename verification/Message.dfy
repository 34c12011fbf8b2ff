/** Byte strings as FIPS 180-4 hashes them: parsing (5.2.1), padding (5.1.1) and the digest (6.2.2). */
module Message {
  import opened Words
  import opened Fips180

  /** The words of b; a message is padded before it is parsed, so there is no remainder. */
  function WordsOf(b: seq<byte>): seq<word> {
    if |b| < 4 then [] else [Load(b[..4])] + WordsOf(b[4..])
  }

  function BytesOf(ws: seq<word>): (b: seq<byte>)
    ensures |b| == 4 * |ws|
  {
    if |ws| == 0 then [] else Store(ws[0]) + BytesOf(ws[1..])
  }

  function Zeros(n: nat): (z: seq<byte>)
    ensures |z| == n
  {
    seq(n, _ => 0)
  }

  /** The low 32 bits of n, most significant byte first. */
  function Be32(n: nat): (b: seq<byte>)
    ensures |b| == 4
  {
    [(n / 0x100_0000 % 256) as byte, (n / 0x1_0000 % 256) as byte, (n / 0x100 % 256) as byte, (n % 256) as byte]
  }

  /** Zero bytes between the end mark and the 64-bit length. */
  function Gap(n: nat): (k: nat)
    ensures (n + 1 + k + 8) % 64 == 0 && k < 64
  {
    (119 - n % 64) % 64
  }

  function Pad(m: seq<byte>): (p: seq<byte>)
    ensures |p| % 64 == 0
  {
    m + [0x80] + Zeros(Gap(|m|)) + Be32(8 * |m| / 0x1_0000_0000) + Be32(8 * |m|)
  }

  function Digest(v: Hash): (d: seq<byte>)
    ensures |d| == 32
  {
    BytesOf(v.Words())
  }

  function Sha256(m: seq<byte>): (d: seq<byte>)
    ensures |d| == 32
  {
    Digest(Fold(IV, WordsOf(Pad(m))))
  }

  lemma {:induction false} WordsOfAppend(a: seq<byte>, b: seq<byte>)
    requires |a| % 4 == 0
    ensures WordsOf(a + b) == WordsOf(a) + WordsOf(b)
  {
    hide Load;
    if |a| == 0 {
      assert a + b == b;
    } else {
      WordsOfAppend(a[4..], b);
      assert (a + b)[..4] == a[..4] && (a + b)[4..] == a[4..] + b;
    }
  }

  lemma {:induction false} WordsOfBytes(ws: seq<word>)
    ensures WordsOf(BytesOf(ws)) == ws
  {
    if |ws| > 0 {
      WordsOfBytes(ws[1..]);
      LoadStore(ws[0]);
      assert BytesOf(ws)[..4] == Store(ws[0]) && BytesOf(ws)[4..] == BytesOf(ws[1..]);
    }
  }

  lemma {:induction false} BytesAt(ws: seq<word>, k: nat)
    requires k < |ws|
    ensures BytesOf(ws)[4 * k..4 * k + 4] == Store(ws[k])
  {
    hide Store;
    if k > 0 {
      BytesAt(ws[1..], k - 1);
      var c := BytesOf(ws[1..]);
      assert c[4 * (k - 1)..4 * (k - 1) + 4] == BytesOf(ws)[4 * k..4 * k + 4];
    }
  }

  lemma {:induction false} FoldAppend(v: Hash, a: seq<word>, b: seq<word>, k: nat)
    requires |b| == 16 * k
    ensures Fold(v, a + b) == Fold(Fold(v, a), b)
  {
    hide Compress;
    if k == 0 {
      assert a + b == a && b == [];
      FoldNone(Fold(v, a));
    } else {
      var n := |b| - 16;
      FoldAppend(v, a, b[..n], k - 1);
      assert (a + b)[..|a + b| - 16] == a + b[..n] && (a + b)[|a + b| - 16..] == b[n..];
    }
  }

  /** The padding the firmware appends: the length it writes has only 32 bits. */
  function ShortPad(count: nat): seq<byte> {
    [0x80] + Zeros(Gap(count) + 4) + Be32(8 * count % 0x1_0000_0000)
  }

  /** It is the standard's padding exactly for messages shorter than 2^29 bytes. */
  lemma ShortPadIsPad(m: seq<byte>)
    requires |m| < 0x1_0000_0000
    ensures m + ShortPad(|m|) == Pad(m) <==> |m| < 0x2000_0000
  {
    var n := 8 * |m|;
    var p, q := Pad(m), m + ShortPad(|m|);
    if |m| < 0x2000_0000 {
      assert n / 0x1_0000_0000 == 0;
      assert Be32(0) == Zeros(4);
      assert Zeros(Gap(|m|) + 4) == Zeros(Gap(|m|)) + Zeros(4);
    } else {
      var h := n / 0x1_0000_0000;
      assert 1 <= h < 8;
      SmallByte(h);
      assert p[|m| + 1 + Gap(|m|) + 3] == (h % 256) as byte;
      assert q[|m| + 1 + Gap(|m|) + 3] == 0;
    }
  }

  lemma SmallByte(h: nat)
    requires 1 <= h < 8
    ensures (h % 256) as byte != 0
  {
    match h
    case 1 => case 2 => case 3 => case 4 => case 5 => case 6 => case 7 =>
  }

  lemma {:induction false} WordsLength(b: seq<byte>)
    ensures |WordsOf(b)| == |b| / 4
  {
    if |b| >= 4 {
      WordsLength(b[4..]);
    }
  }

  lemma {:induction false} WordsOfZeros(n: nat)
    ensures WordsOf(Zeros(4 * n)) == seq(n, _ => 0 as word)
  {
    if n > 0 {
      WordsOfZeros(n - 1);
      assert Zeros(4 * n)[4..] == Zeros(4 * (n - 1));
      assert Zeros(4 * n)[..4] == [0, 0, 0, 0];
    }
  }

  lemma WordsOfStore(w: word)
    ensures WordsOf(Store(w)) == [w]
  {
    LoadStore(w);
    assert Store(w)[..4] == Store(w);
  }

  /** Words 8 to 15 of the padded form of any 32-byte message. */
  const DIGEST_TAIL: seq<word> := [0x8000_0000, 0, 0, 0, 0, 0, 0, 0x100]

  /** Padding a digest gives one block: its own eight words and the constant tail. */
  lemma DigestPadded(v: Hash)
    ensures WordsOf(Pad(Digest(v))) == v.Words() + DIGEST_TAIL
  {
    hide Store, Load, WordsOf, BytesOf;
    var first: word, last: word := 0x8000_0000, 0x100;
    PadOfDigest(Digest(v), first, last);
    WordsOfBytes(v.Words());
    WordsOfAppend(Digest(v), Store(first) + (Zeros(24) + Store(last)));
    WordsOfAppend(Store(first), Zeros(24) + Store(last));
    WordsOfAppend(Zeros(24), Store(last));
    WordsOfZeros(6);
    WordsOfStore(first);
    WordsOfStore(last);
    assert [first] + (seq(6, _ => 0 as word) + [last]) == DIGEST_TAIL;
  }

  lemma PadOfDigest(d: seq<byte>, first: word, last: word)
    requires |d| == 32 && first == 0x8000_0000 && last == 0x100
    ensures Pad(d) == d + (Store(first) + (Zeros(24) + Store(last)))
  {
    hide Store;
    DigestMarks(first, last);
    assert Be32(0) == Zeros(4);
    assert Zeros(23) + Zeros(4) == Zeros(3) + Zeros(24);
  }

  lemma DigestMarks(first: word, last: word)
    requires first == 0x8000_0000 && last == 0x100
    ensures Store(first) == [0x80] + Zeros(3) && Store(last) == Be32(256)
  {}

  function HashOf(ws: seq<word>): Hash
    requires |ws| == 8
  {
    Hash(ws[0], ws[1], ws[2], ws[3], ws[4], ws[5], ws[6], ws[7])
  }

  /** With it the message is j blocks long. */
  lemma ShortPadLength(count: nat) returns (j: nat)
    ensures count + |ShortPad(count)| == 64 * j
  {
    j := (count + 9 + Gap(count)) / 64;
  }

  lemma Quarters(k: nat)
    ensures 4 * k % 4 == 0 && 4 * k / 4 == k
  {}

  lemma WordsLengthIs(b: seq<byte>, n: nat)
    requires |b| == 4 * n
    ensures |WordsOf(b)| == n
  {
    hide WordsOf;
    Quarters(n);
    WordsLength(b);
  }

  lemma BlocksAppend(a: seq<byte>, k: nat, b: seq<byte>, j: nat)
    requires |a| == 64 * k && |b| == 64 * j
    ensures WordsOf(a + b) == WordsOf(a) + WordsOf(b) && |WordsOf(b)| == 16 * j
  {
    hide WordsOf;
    Quarters(16 * k);
    assert |a| == 4 * (16 * k) && |b| == 4 * (16 * j);
    WordsOfAppend(a, b);
    WordsLengthIs(b, 16 * j);
  }

  lemma RestLength(k: nat, rest: nat, pad: nat, j: nat)
    requires 64 * k + rest + pad == 64 * j
    ensures j >= k && rest + pad == 64 * (j - k)
  {}

  /** Hashing may be resumed at any block boundary. */
  lemma Resumes(prefix: seq<byte>, k: nat, rest: seq<byte>)
    requires |prefix| == 64 * k && |prefix| + |rest| < 0x2000_0000
    ensures Digest(Fold(Fold(IV, WordsOf(prefix)), WordsOf(rest + ShortPad(|prefix| + |rest|)))) == Sha256(prefix + rest)
  {
    hide ShortPad, Pad, WordsOf, Fold, Digest;
    var m := prefix + rest;
    var pad := ShortPad(|m|);
    ShortPadIsPad(m);
    var j := ShortPadLength(|m|);
    assert prefix + (rest + pad) == m + pad;
    RestLength(k, |rest|, |pad|, j);
    BlocksAppend(prefix, k, rest + pad, j - k);
    FoldAppend(IV, WordsOf(prefix), WordsOf(rest + pad), j - k);
  }
}
