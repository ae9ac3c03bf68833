/**
The header of a 0-db namespace (pkg/storage/zdbpool/ns_header.go:16-105): a base
header, the name and the password, and an extended header, little endian.
*/
module NamespaceHeader {
  import opened U64

  type byte = n: nat | n < 256

  datatype Header = Header(version: nat, name: seq<byte>, password: seq<byte>, maxSize: nat)

  /** `Cut` is a stream that ends too early. */
  datatype Parsed = Cut | Parsed(header: Header, rest: seq<byte>)

  const FLAG_PUBLIC: nat := 1
  const FLAG_EXTENDED: nat := 4

  // ---------------------------------------------------------------- little endian numbers

  function Pow256(k: nat): nat {
    if k == 0 then 1 else 256 * Pow256(k - 1)
  }

  function ToBytes(n: nat, k: nat): (s: seq<byte>)
    ensures |s| == k
  {
    if k == 0 then [] else [n % 256] + ToBytes(n / 256, k - 1)
  }

  function FromBytes(s: seq<byte>): nat {
    if s == [] then 0 else s[0] + 256 * FromBytes(s[1..])
  }

  lemma {:induction false} NumberRoundTrip(n: nat, k: nat)
    requires n < Pow256(k)
    ensures FromBytes(ToBytes(n, k)) == n
  {
    if k != 0 {
      assert n / 256 < Pow256(k - 1);
      NumberRoundTrip(n / 256, k - 1);
      assert ToBytes(n, k)[1..] == ToBytes(n / 256, k - 1);
    }
  }

  // ---------------------------------------------------------------- format

  function Base(nameLength: byte, passwordLength: byte, maxSize: nat, flags: byte): (s: seq<byte>)
    ensures |s| == 7
  {
    [nameLength, passwordLength] + ToBytes(maxSize, 4) + [flags]
  }

  /** What is written: lengths are truncated to a byte, the 32-bit size is left at zero. */
  function Encode(h: Header): seq<byte> {
    Base(|h.name| % 256, |h.password| % 256, 0, FLAG_PUBLIC + FLAG_EXTENDED)
      + h.name + h.password + ToBytes(1, 4) + ToBytes(h.maxSize, 8)
  }

  predicate Extended(flags: byte) {
    flags / FLAG_EXTENDED % 2 == 1
  }

  /** The base header of a stream. */
  function Parse(s: seq<byte>): Parsed {
    if |s| < 7 then Cut
    else ParseBody(s[0], s[1], FromBytes(s[2..6]), Extended(s[6]), s[7..])
  }

  function ParseBody(nameLength: byte, passwordLength: byte, size: nat, extended: bool, s: seq<byte>): Parsed {
    if |s| < nameLength + passwordLength then Cut
    else
      var name := s[..nameLength];
      var password := s[nameLength..nameLength + passwordLength];
      var rest := s[nameLength + passwordLength..];
      if !extended then Parsed(Header(0, name, password, size), rest)
      else if |rest| < 12 then Cut
      else Parsed(Header(FromBytes(rest[..4]), name, password, FromBytes(rest[4..12])), rest[12..])
  }

  // ---------------------------------------------------------------- round trip

  lemma EncodeParts(h: Header, rest: seq<byte>)
    ensures
      var s := Encode(h) + rest;
      && |s| >= 7 && s[0] == |h.name| % 256 && s[1] == |h.password| % 256 && Extended(s[6])
      && s[7..] == h.name + h.password + (ToBytes(1, 4) + ToBytes(h.maxSize, 8) + rest)
  {
    var base := Base(|h.name| % 256, |h.password| % 256, 0, FLAG_PUBLIC + FLAG_EXTENDED);
    var s := Encode(h) + rest;
    assert s == base + (h.name + h.password + (ToBytes(1, 4) + ToBytes(h.maxSize, 8) + rest));
    assert s[6] == base[6] == 5;
  }

  lemma BodyRoundTrip(name: seq<byte>, password: seq<byte>, size: nat, maxSize: u64, rest: seq<byte>)
    requires |name| < 256 && |password| < 256
    ensures ParseBody(|name|, |password|, size, true,
                      name + password + (ToBytes(1, 4) + ToBytes(maxSize, 8) + rest))
         == Parsed(Header(1, name, password, maxSize), rest)
  {
    var tail := ToBytes(1, 4) + ToBytes(maxSize, 8) + rest;
    var s := name + password + tail;
    assert s[..|name|] == name;
    assert s[|name|..|name| + |password|] == password;
    assert s[|name| + |password|..] == tail;
    assert tail[..4] == ToBytes(1, 4) && tail[4..12] == ToBytes(maxSize, 8) && tail[12..] == rest;
    EightBytes();
    NumberRoundTrip(1, 4);
    NumberRoundTrip(maxSize, 8);
  }

  lemma EightBytes()
    ensures Pow256(8) == LIMIT && Pow256(4) == 0x1_0000_0000
  {
    assert Pow256(2) == 0x1_0000;
    assert Pow256(4) == 0x1_0000_0000;
    assert Pow256(6) == 0x1_0000_0000_0000;
  }

  lemma ParsedIsShort(s: seq<byte>)
    ensures Parse(s).Parsed? ==> |Parse(s).header.name| <= 255 && |Parse(s).header.password| <= 255
  {
  }

  lemma ShortRoundTrip(h: Header, rest: seq<byte>)
    requires h.maxSize < LIMIT && |h.name| <= 255 && |h.password| <= 255
    ensures Parse(Encode(h) + rest) == Parsed(Header(1, h.name, h.password, h.maxSize), rest)
  {
    EncodeParts(h, rest);
    ShortParse(Encode(h) + rest, h.name, h.password, h.maxSize, rest);
  }

  lemma ShortParse(s: seq<byte>, name: seq<byte>, password: seq<byte>, maxSize: u64, rest: seq<byte>)
    requires |name| < 256 && |password| < 256
    requires |s| >= 7 && s[0] == |name| && s[1] == |password| && Extended(s[6])
    requires s[7..] == name + password + (ToBytes(1, 4) + ToBytes(maxSize, 8) + rest)
    ensures Parse(s) == Parsed(Header(1, name, password, maxSize), rest)
  {
    BodyRoundTrip(name, password, FromBytes(s[2..6]), maxSize, rest);
  }

  /**
   * Reading undoes writing, leaving the bytes that follow unread, exactly for names and passwords of
   * at most 255 bytes.
   */
  lemma RoundTripIffShort(h: Header, rest: seq<byte>)
    requires h.maxSize < LIMIT
    ensures Parse(Encode(h) + rest) == Parsed(Header(1, h.name, h.password, h.maxSize), rest)
       <==> |h.name| <= 255 && |h.password| <= 255
  {
    ParsedIsShort(Encode(h) + rest);
    if |h.name| <= 255 && |h.password| <= 255 {
      ShortRoundTrip(h, rest);
    }
  }

  /** A base header alone is read with version zero and its 32-bit size. */
  lemma BaseOnlyRoundTrip(name: seq<byte>, password: seq<byte>, size: nat, flags: byte, rest: seq<byte>)
    requires |name| < 256 && |password| < 256 && size < 0x1_0000_0000 && !Extended(flags)
    ensures Parse(Base(|name|, |password|, size, flags) + name + password + rest)
         == Parsed(Header(0, name, password, size), rest)
  {
    var base := Base(|name|, |password|, size, flags);
    var s := base + name + password + rest;
    assert s[7..] == name + password + rest;
    assert s[2..6] == ToBytes(size, 4);
    assert s[6] == base[6] == flags;
    EightBytes();
    NumberRoundTrip(size, 4);
    var t := name + password + rest;
    assert t[..|name|] == name && t[|name|..|name| + |password|] == password;
    assert t[|name| + |password|..] == rest;
  }

  /** Four bytes, the lowest first. */
  lemma Bytes4(n: nat)
    ensures ToBytes(n, 4) == [n % 256, n / 0x100 % 256, n / 0x1_0000 % 256, n / 0x100_0000 % 256]
  {
    var a := n / 256;
    var b := a / 256;
    var c := b / 256;
    assert b == n / 0x1_0000 && c == n / 0x100_0000;
    assert ToBytes(c, 1) == [c % 256] + ToBytes(c / 256, 0);
    assert ToBytes(b, 2) == [b % 256] + ToBytes(c, 1);
    assert ToBytes(a, 3) == [a % 256] + ToBytes(b, 2);
    assert ToBytes(n, 4) == [n % 256] + ToBytes(a, 3);
  }

  /**
   * Where each byte of a written header is: the two lengths, four zero bytes, the flags of a public namespace with
   * an extended header, name, password, version 1 and the size.
   */
  lemma LayoutIsExact(h: Header)
    ensures
      var (s, n, p) := (Encode(h), |h.name|, |h.password|);
      && |s| == 19 + n + p
      && s[..7] == [n % 256, p % 256, 0, 0, 0, 0, 5]
      && s[7..7 + n] == h.name && s[7 + n..7 + n + p] == h.password
      && s[7 + n + p..11 + n + p] == [1, 0, 0, 0] && s[11 + n + p..] == ToBytes(h.maxSize, 8)
      && s[11 + n + p] == h.maxSize % 256
  {
    Bytes4(0);
    Bytes4(1);
  }

  // ---------------------------------------------------------------- streams

  class Writer {
    var out: seq<byte>

    method Write(s: seq<byte>)
      modifies this
      ensures out == old(out) + s
    {
      out := out + s;
    }
  }

  class Reader {
    const data: seq<byte>
    var pos: nat

    predicate Valid() reads this { pos <= |data| }

    function Rest(): seq<byte>
      requires Valid()
      reads this
    {
      data[pos..]
    }

    /** Reads `n` bytes, or fails when fewer are left. */
    method Read(n: nat) returns (ok: bool, s: seq<byte>)
      requires Valid()
      modifies this
      ensures Valid()
      ensures ok <==> n <= |old(Rest())|
      ensures ok ==> s == old(Rest())[..n] && Rest() == old(Rest())[n..]
    {
      if n > |data| - pos {
        pos := |data|;
        return false, [];
      }
      s := data[pos..pos + n];
      pos := pos + n;
      ok := true;
    }
  }

  method WriteHeader(w: Writer, h: Header)
    modifies w
    ensures w.out == old(w.out) + Encode(h)
  {
    var base := Base(|h.name| % 256, |h.password| % 256, 0, FLAG_PUBLIC + FLAG_EXTENDED);
    var extended := ToBytes(1, 4) + ToBytes(h.maxSize, 8);
    assert Encode(h) == base + h.name + h.password + extended;
    ghost var was := w.out;
    w.Write(base);
    w.Write(h.name);
    w.Write(h.password);
    w.Write(extended);
    assert w.out == was + (base + h.name + h.password + extended);
  }

  method ReadHeader(r: Reader) returns (ok: bool, header: Header)
    requires r.Valid()
    modifies r
    ensures r.Valid()
    ensures ok <==> Parse(old(r.Rest())).Parsed?
    ensures ok ==> Parse(old(r.Rest())) == Parsed(header, r.Rest())
  {
    header := Header(0, [], [], 0);
    ghost var s := r.Rest();
    var base, name, password, extended;
    ok, base := r.Read(7);
    if !ok { return; }
    assert base[2..6] == s[2..6];
    ok, name := r.Read(base[0]);
    if !ok { return; }
    ok, password := r.Read(base[1]);
    if !ok { return; }
    ghost var n: nat, p: nat := base[0], base[1];
    assert r.Rest() == s[7..][n + p..];
    header := Header(0, name, password, FromBytes(base[2..6]));
    if !Extended(base[6]) { return; }
    ghost var rest := r.Rest();
    ok, extended := r.Read(12);
    if !ok { return; }
    assert extended[..4] == rest[..4] && extended[4..12] == rest[4..12];
    header := header.(version := FromBytes(extended[..4]), maxSize := FromBytes(extended[4..12]));
  }
}
