// Day 23: LAN Party. A computer's two-letter name is packed into a `u16`,
// first letter in the low byte.
module Day23 {
  import opened Wrappers

  type Byte = x: nat | x < 256
  type U16 = x: nat | x < 0x1_0000

  /** The byte of the letter 't'. */
  const LetterT: Byte := 116

  datatype Computer = Computer(id: U16)

  /** `u16::from_le_bytes`: the first byte is the low one. */
  function FromLeBytes(lo: Byte, hi: Byte): (r: U16)
    ensures r % 256 == lo && r / 256 == hi
  {
    lo + 256 * hi
  }

  /** `u16::to_le_bytes`. */
  function ToLeBytes(v: U16): (r: seq<Byte>)
    ensures |r| == 2 && FromLeBytes(r[0], r[1]) == v
  {
    [v % 256, v / 256]
  }

  /** The two byte orders are inverse. */
  lemma ToLeBytesFrom(lo: Byte, hi: Byte)
    ensures ToLeBytes(FromLeBytes(lo, hi)) == [lo, hi]
  {
  }

  /** `Computer::new`: the first two bytes of the name; a shorter name
      panics on the index. Bytes past the second are ignored. */
  function New(name: seq<Byte>): (c: Computer)
    requires |name| >= 2
    ensures ToLeBytes(c.id) == name[..2]
  {
    ToLeBytesFrom(name[0], name[1]);
    Computer(FromLeBytes(name[0], name[1]))
  }

  /** Two names give the same computer exactly when they share their first
      two bytes. */
  lemma NewSame(x: seq<Byte>, y: seq<Byte>)
    requires |x| >= 2 && |y| >= 2
    ensures New(x) == New(y) <==> x[..2] == y[..2]
  {
    if New(x) == New(y) {
      assert x[..2] == ToLeBytes(New(x).id) == y[..2];
    } else {
      assert x[0] != y[0] || x[1] != y[1];
    }
  }

  /** The derived `Ord` compares the packed `u16`: the second letter first,
      then the first. */
  lemma OrderOfNew(x: seq<Byte>, y: seq<Byte>)
    requires |x| >= 2 && |y| >= 2
    ensures New(x).id < New(y).id <==> x[1] < y[1] || (x[1] == y[1] && x[0] < y[0])
  {
  }

  /** `can_be_chief_historian`: the low byte is 't'. */
  function CanBeChiefHistorian(c: Computer): (r: bool)
    ensures r <==> ToLeBytes(c.id)[0] == LetterT
  {
    c.id % 256 == LetterT
  }

  /** A computer can be the Chief Historian's exactly when its name starts
      with 't'. */
  lemma ChiefIffStartsWithT(name: seq<Byte>)
    requires |name| >= 2
    ensures CanBeChiefHistorian(New(name)) <==> name[0] == LetterT
  {
  }

  // ---------------------------------------------------------------------------
  // Display: `from_utf8` of the two bytes, which panics when they are not
  // UTF-8.

  /** One UTF-8 lead byte of a two-byte character. */
  predicate LeadOfTwo(b: Byte)
  {
    0xC2 <= b <= 0xDF
  }

  predicate Continuation(b: Byte)
  {
    0x80 <= b <= 0xBF
  }

  /** `from_utf8` of two bytes: two ASCII characters, one two-byte
      character, or an error. */
  function FromUtf8(lo: Byte, hi: Byte): (r: Option<string>)
    ensures r.Some? <==> (lo < 128 && hi < 128) || (LeadOfTwo(lo) && Continuation(hi))
    ensures lo < 128 && hi < 128 ==> r == Some([lo as char, hi as char])
    ensures LeadOfTwo(lo) && Continuation(hi) ==> r.Some? && |r.value| == 1
  {
    if lo < 128 && hi < 128 then Some([lo as char, hi as char])
    else if LeadOfTwo(lo) && Continuation(hi) then
      Some([((lo - 0xC0) * 64 + (hi - 0x80)) as char])
    else None
  }

  /** `Display`: the computer's two bytes as text; `None` is the panic of
      `unwrap` on bytes that are not UTF-8. */
  function Display(c: Computer): (r: Option<string>)
    ensures r.Some? <==> FromUtf8(c.id % 256, c.id / 256).Some?
  {
    var bytes := ToLeBytes(c.id);
    FromUtf8(bytes[0], bytes[1])
  }

  /** Text of ASCII characters as its bytes. */
  predicate IsAscii(s: string)
  {
    forall i :: 0 <= i < |s| ==> s[i] < 128 as char
  }

  function AsBytes(s: string): (r: seq<Byte>)
    requires IsAscii(s)
    ensures |r| == |s| && forall i :: 0 <= i < |s| ==> r[i] == s[i] as int
  {
    seq(|s|, i requires 0 <= i < |s| => s[i] as int)
  }

  /** `Display` turns the computer of a two-letter ASCII name back into the
      name. */
  lemma DisplayNew(name: string)
    requires |name| == 2 && IsAscii(name)
    ensures Display(New(AsBytes(name))) == Some(name)
  {
    var b := AsBytes(name);
    assert b[..2] == b;
    assert [b[0] as char, b[1] as char] == name;
  }

  /** The test's "tk" gives back "tk", and "tj" is a Chief Historian
      candidate. */
  lemma ExampleNames()
    ensures Display(New([116, 107])) == Some("tk")
    ensures Display(New([116, 106])) == Some("tj")
    ensures CanBeChiefHistorian(New([116, 106]))
  {
    DisplayNew("tk");
    DisplayNew("tj");
    assert AsBytes("tk") == [116, 107];
    assert AsBytes("tj") == [116, 106];
  }
}
