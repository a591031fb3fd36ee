/**
 * Task identity (download.go, makeID): the hex rendering of a 20-byte digest
 * of the URLs' bytes, fed to the hash one URL after another. The digest
 * function itself (SHA-1) is a parameter.
 */
module TaskIds {

  newtype byte = x: int | 0 <= x < 256

  const DigestLength: nat := 20

  /** What the hash returns: exactly twenty bytes. */
  type Digest = d: seq<byte> | |d| == DigestLength witness seq(20, (_: int) => 0 as byte)

  /** The UTF-8 encoding of one character. */
  function EncodeChar(c: char): (r: seq<byte>)
    ensures 1 <= |r| <= 4
    ensures (c as int < 0x80) == (|r| == 1)
  {
    var n := c as int;
    if n < 0x80 then [n as byte]
    else if n < 0x800 then [(0xC0 + n / 0x40) as byte, (0x80 + n % 0x40) as byte]
    else if n < 0x10000 then
      [(0xE0 + n / 0x1000) as byte, (0x80 + n / 0x40 % 0x40) as byte, (0x80 + n % 0x40) as byte]
    else
      [(0xF0 + n / 0x40000) as byte, (0x80 + n / 0x1000 % 0x40) as byte,
       (0x80 + n / 0x40 % 0x40) as byte, (0x80 + n % 0x40) as byte]
  }

  /** The bytes of a string, as the conversion `[]byte(s)` gives them. */
  function Utf8(s: string): seq<byte>
  {
    if s == [] then [] else Utf8(s[..|s| - 1]) + EncodeChar(s[|s| - 1])
  }

  /** The URLs written one after another. */
  function Join(urls: seq<string>): string
  {
    if urls == [] then "" else Join(urls[..|urls| - 1]) + urls[|urls| - 1]
  }

  /** The byte stream the hash is fed: each URL's bytes, in request order. */
  function Feed(urls: seq<string>): seq<byte>
  {
    if urls == [] then [] else Feed(urls[..|urls| - 1]) + Utf8(urls[|urls| - 1])
  }

  const HexDigits: string := "0123456789abcdef"

  /** Lower-case hexadecimal, two digits per byte, high nibble first. */
  function Hex(d: seq<byte>): string
  {
    if d == [] then ""
    else [HexDigits[d[0] as int / 16], HexDigits[d[0] as int % 16]] + Hex(d[1..])
  }

  /** The value of a lower-case hex digit (0 for any other character). */
  function DigitValue(c: char): (v: int)
    ensures 0 <= v < 16
  {
    if '0' <= c <= '9' then c as int - '0' as int
    else if 'a' <= c <= 'f' then c as int - 'a' as int + 10
    else 0
  }

  /** Reads back a hex string, two digits per byte. */
  function Unhex(s: string): seq<byte>
    decreases |s|
  {
    if |s| < 2 then [] else [(16 * DigitValue(s[0]) + DigitValue(s[1])) as byte] + Unhex(s[2..])
  }

  /** The id of the task for `urls`, given the digest function. */
  function IdOf(hash: seq<byte> -> Digest, urls: seq<string>): string
  {
    Hex(hash(Feed(urls)))
  }

  /** makeID: feeds every URL to the hash state in turn, then renders the sum. */
  method MakeId(hash: seq<byte> -> Digest, urls: seq<string>) returns (id: string)
    ensures id == IdOf(hash, urls)
    ensures |id| == 2 * DigestLength
  {
    var fed: seq<byte> := [];
    for i := 0 to |urls|
      invariant fed == Feed(urls[..i])
    {
      assert urls[..i + 1][..i] == urls[..i];
      fed := fed + Utf8(urls[i]);
    }
    assert urls[..|urls|] == urls;
    id := Hex(hash(fed));
    HexShape(hash(fed));
  }

  lemma {:induction false} Utf8Append(a: string, b: string)
    ensures Utf8(a + b) == Utf8(a) + Utf8(b)
    decreases |b|
  {
    if b == [] {
      assert a + b == a;
    } else {
      var b' := b[..|b| - 1];
      assert (a + b)[..|a + b| - 1] == a + b';
      assert (a + b)[|a + b| - 1] == b[|b| - 1];
      Utf8Append(a, b');
    }
  }

  /** Feeding the URLs one by one is feeding the bytes of their concatenation. */
  lemma {:induction false} FeedIsJoin(urls: seq<string>)
    ensures Feed(urls) == Utf8(Join(urls))
  {
    if urls != [] {
      var init := urls[..|urls| - 1];
      FeedIsJoin(init);
      Utf8Append(Join(init), urls[|urls| - 1]);
    }
  }

  lemma {:induction false} HexShape(d: seq<byte>)
    ensures |Hex(d)| == 2 * |d|
    ensures forall k :: 0 <= k < |Hex(d)| ==> Hex(d)[k] in HexDigits
  {
    if d != [] {
      HexShape(d[1..]);
    }
  }

  lemma DigitValueOfDigit(v: int)
    requires 0 <= v < 16
    ensures DigitValue(HexDigits[v]) == v
  {
  }

  /** Hex loses nothing: the digest can be read back from the id. */
  lemma {:induction false} UnhexHex(d: seq<byte>)
    ensures Unhex(Hex(d)) == d
  {
    if d != [] {
      var hi, lo := d[0] as int / 16, d[0] as int % 16;
      DigitValueOfDigit(hi);
      DigitValueOfDigit(lo);
      var h := Hex(d);
      assert h == [HexDigits[hi], HexDigits[lo]] + Hex(d[1..]);
      assert h[0] == HexDigits[hi] && h[1] == HexDigits[lo];
      assert h[2..] == Hex(d[1..]);
      UnhexHex(d[1..]);
      assert Unhex(h) == [(16 * hi + lo) as byte] + d[1..];
    }
  }

  /** A task id is forty lower-case hexadecimal characters. */
  lemma IdShape(hash: seq<byte> -> Digest, urls: seq<string>)
    ensures |IdOf(hash, urls)| == 40
    ensures forall k :: 0 <= k < 40 ==> IdOf(hash, urls)[k] in "0123456789abcdef"
  {
    HexShape(hash(Feed(urls)));
  }

  /** Two URL lists with equal ids have equal digests. */
  lemma IdDeterminesDigest(hash: seq<byte> -> Digest, a: seq<string>, b: seq<string>)
    requires IdOf(hash, a) == IdOf(hash, b)
    ensures hash(Feed(a)) == hash(Feed(b))
  {
    var da, db := hash(Feed(a)), hash(Feed(b));
    UnhexHex(da);
    UnhexHex(db);
  }

  /** The id depends on the URLs only through their concatenation. */
  lemma IdDependsOnlyOnJoin(hash: seq<byte> -> Digest, a: seq<string>, b: seq<string>)
    requires Join(a) == Join(b)
    ensures IdOf(hash, a) == IdOf(hash, b)
  {
    FeedIsJoin(a);
    FeedIsJoin(b);
  }

  /** ["ab", "c"] and ["a", "bc"] name the same task. */
  lemma SplitDoesNotMatter(hash: seq<byte> -> Digest)
    ensures IdOf(hash, ["ab", "c"]) == IdOf(hash, ["a", "bc"])
  {
    var a, b := ["ab", "c"], ["a", "bc"];
    assert a[..1] == ["ab"] && a[..1][..0] == [];
    assert b[..1] == ["a"] && b[..1][..0] == [];
    assert Join(a) == "abc" == Join(b);
    IdDependsOnlyOnJoin(hash, a, b);
  }
}
