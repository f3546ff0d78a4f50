/** Reading a package template and writing the customized package
    (go/tun/ui/web/tun/tun-download-core.js): tar archives in the ustar Interchange
    Format of the pax utility, IEEE Std 1003.1. Names are byte strings. */
module Tar {
  import opened Wrappers

  type Byte = x: int | 0 <= x < 256

  type Bytes = seq<Byte>

  const BLOCK := 512

  function Padded(n: nat): nat { (n + BLOCK - 1) / BLOCK * BLOCK }

  function Repeat(b: Byte, n: nat): (r: Bytes)
    ensures |r| == n && forall i | 0 <= i < n :: r[i] == b
  {
    seq(n, i => b)
  }

  predicate AllZero(s: Bytes) { forall b | b in s :: b == 0 }

  // ---------------------------------------------------------------------
  // Fields
  // ---------------------------------------------------------------------

  /** What is before the first NUL. */
  function Cut(s: Bytes): (r: Bytes)
    ensures r <= s && 0 !in r && (|r| < |s| ==> s[|r|] == 0)
  {
    if s == [] || s[0] == 0 then [] else [s[0]] + Cut(s[1..])
  }

  function Text(h: Bytes, off: nat, len: nat): Bytes
    requires off + len <= |h|
  {
    Cut(h[off..off + len])
  }

  predicate IsSpace(b: Byte) { 9 <= b <= 13 || b == 32 }

  function TrimStart(s: Bytes): Bytes { if s != [] && IsSpace(s[0]) then TrimStart(s[1..]) else s }

  function TrimEnd(s: Bytes): Bytes { if s != [] && IsSpace(s[|s| - 1]) then TrimEnd(s[..|s| - 1]) else s }

  predicate IsOctal(b: Byte) { 48 <= b <= 55 }

  function Digit(b: Byte): nat
    requires IsOctal(b)
  {
    b as int - 48
  }

  /** How many octal digits s starts with. */
  function Digits(s: Bytes): (n: nat)
    ensures n <= |s|
  {
    if s != [] && IsOctal(s[0]) then 1 + Digits(s[1..]) else 0
  }

  /** The number the octal digits of s write. */
  function Value(s: Bytes): nat
    requires forall b | b in s :: IsOctal(b)
  {
    if s == [] then 0 else Value(s[..|s| - 1]) * 8 + Digit(s[|s| - 1])
  }

  lemma {:induction false} DigitsAreOctal(s: Bytes)
    ensures forall b | b in s[..Digits(s)] :: IsOctal(b)
  {
    if s != [] && IsOctal(s[0]) {
      DigitsAreOctal(s[1..]);
      assert s[..Digits(s)] == [s[0]] + s[1..][..Digits(s[1..])];
    }
  }

  /** The number s starts with, None when it does not start with one. */
  function ParseOctal(s: Bytes): Option<nat> {
    DigitsAreOctal(s);
    if Digits(s) == 0 then None else Some(Value(s[..Digits(s)]))
  }

  function SizeOf(header: Bytes): Option<nat>
    requires |header| == BLOCK
  {
    var t := TrimEnd(TrimStart(Text(header, 124, 12)));
    ParseOctal(if t == [] then [48] else t)
  }

  // ---------------------------------------------------------------------
  // Reading
  // ---------------------------------------------------------------------

  datatype Entry = Entry(name: Bytes, header: Bytes, data: Bytes)

  datatype TarError = NotATar | EmptyTar | NoDomain | PathTooLong

  function Drop(s: Bytes, n: nat): Bytes { if n <= |s| then s[n..] else [] }

  function Take(s: Bytes, n: nat): Bytes { if n <= |s| then s[..n] else s }

  /** The entries up to a zero block or the end; None for a size that is no number. */
  function Read(bytes: Bytes): Option<seq<Entry>>
    decreases |bytes|
  {
    if |bytes| < BLOCK || AllZero(bytes[..BLOCK]) then Some([]) else
      var header := bytes[..BLOCK];
      match SizeOf(header)
      case None => None
      case Some(size) =>
        match Read(Drop(bytes, BLOCK + Padded(size)))
        case None => None
        case Some(rest) => Some([EntryOf(header, bytes[BLOCK..], size)] + rest)
  }

  function EntryOf(header: Bytes, after: Bytes, size: nat): Entry
    requires |header| == BLOCK
  {
    Entry(Text(header, 0, 100), header, Take(after, size))
  }

  /** The entries so far and what is left read as the whole. */
  ghost predicate ReadsOn(bytes: Bytes, entries: seq<Entry>, rest: Bytes) {
    Read(bytes) == match Read(rest) case None => None case Some(es) => Some(entries + es)
  }

  lemma ReadsStart(bytes: Bytes)
    ensures ReadsOn(bytes, [], bytes)
  {
    if Read(bytes).Some? { assert [] + Read(bytes).value == Read(bytes).value; }
  }

  lemma ReadsOneMore(bytes: Bytes, entries: seq<Entry>, rest: Bytes, size: nat)
    requires ReadsOn(bytes, entries, rest) && |rest| >= BLOCK && !AllZero(rest[..BLOCK]) && SizeOf(rest[..BLOCK]) == Some(size)
    ensures ReadsOn(bytes, entries + [EntryOf(rest[..BLOCK], rest[BLOCK..], size)], Drop(rest, BLOCK + Padded(size)))
  {
    hide AllZero, SizeOf, Padded, Take, Text;
    var e, next := EntryOf(rest[..BLOCK], rest[BLOCK..], size), Drop(rest, BLOCK + Padded(size));
    if Read(next).Some? {
      assert entries + ([e] + Read(next).value) == (entries + [e]) + Read(next).value;
    }
  }

  lemma ReadsNone(bytes: Bytes, entries: seq<Entry>, rest: Bytes)
    requires ReadsOn(bytes, entries, rest) && |rest| >= BLOCK && !AllZero(rest[..BLOCK]) && SizeOf(rest[..BLOCK]).None?
    ensures Read(bytes).None?
  {
  }

  lemma ReadsEnd(bytes: Bytes, entries: seq<Entry>, rest: Bytes)
    requires ReadsOn(bytes, entries, rest) && (|rest| < BLOCK || AllZero(rest[..BLOCK]))
    ensures Read(bytes) == Some(entries)
  {
    assert entries + [] == entries;
  }

  /** readTar. */
  method ReadTar(bytes: Bytes) returns (r: Result<seq<Entry>, TarError>)
    ensures r == match Read(bytes)
                 case None => Err(NotATar)
                 case Some(es) => if es == [] then Err(EmptyTar) else Ok(es)
  {
    hide Read, ReadsOn, SizeOf, AllZero, Padded, Text;
    var entries: seq<Entry> := [];
    var off: nat := 0;
    ReadsStart(bytes);
    assert Drop(bytes, 0) == bytes;
    while off + BLOCK <= |bytes|
      invariant ReadsOn(bytes, entries, Drop(bytes, off))
      decreases |bytes| - off
    {
      ghost var rest := bytes[off..];
      var header := bytes[off..off + BLOCK];
      assert rest[..BLOCK] == header;
      if AllZero(header) {
        ReadsEnd(bytes, entries, rest);
        if entries == [] {
          return Err(EmptyTar);
        }
        return Ok(entries);
      }
      var size := SizeOf(header);
      if size.None? {
        ReadsNone(bytes, entries, rest);
        return Err(NotATar);
      }
      ReadsOneMore(bytes, entries, rest, size.value);
      assert rest[BLOCK..] == bytes[off + BLOCK..];
      var next := off + BLOCK + Padded(size.value);
      assert Drop(rest, BLOCK + Padded(size.value)) == Drop(bytes, next);
      entries := entries + [EntryOf(header, bytes[off + BLOCK..], size.value)];
      off := next;
    }
    ReadsEnd(bytes, entries, Drop(bytes, off));
    if entries == [] {
      return Err(EmptyTar);
    }
    return Ok(entries);
  }

  // ---------------------------------------------------------------------
  // Octal fields
  // ---------------------------------------------------------------------

  function Pow8(n: nat): nat { if n == 0 then 1 else 8 * Pow8(n - 1) }

  /** The shortest octal writing of v. */
  function ToOctal(v: nat): (s: Bytes)
    ensures s != [] && forall b | b in s :: IsOctal(b)
  {
    if v < 8 then [48 + v] else ToOctal(v / 8) + [48 + v % 8]
  }

  function PadStart(s: Bytes, n: nat): Bytes { if |s| < n then Repeat(48, n - |s|) + s else s }

  /** The first len - 1 of v's padded digits and a NUL. */
  function OctalField(v: nat, len: nat): (f: Bytes)
    requires len >= 1
    ensures |f| == len
  {
    PadStart(ToOctal(v), len - 1)[..len - 1] + [0]
  }

  lemma {:induction false} ToOctalValue(v: nat)
    ensures Value(ToOctal(v)) == v
  {
    if v >= 8 {
      ToOctalValue(v / 8);
      var s := ToOctal(v);
      assert s[..|s| - 1] == ToOctal(v / 8);
    }
  }

  lemma {:induction false} ToOctalFits(v: nat, n: nat)
    requires n >= 1 && v < Pow8(n)
    ensures |ToOctal(v)| <= n
  {
    if v >= 8 {
      assert Pow8(1) == 8;
      ToOctalFits(v / 8, n - 1);
    }
  }

  lemma {:induction false} LeadingZeros(k: nat, s: Bytes)
    requires forall b | b in s :: IsOctal(b)
    ensures forall b | b in Repeat(48, k) + s :: IsOctal(b)
    ensures Value(Repeat(48, k) + s) == Value(s)
    decreases |s|, k
  {
    var t := Repeat(48, k) + s;
    if s != [] {
      var less := s[..|s| - 1];
      assert t[..|t| - 1] == Repeat(48, k) + less;
      LeadingZeros(k, less);
    } else if k > 0 {
      assert t[..k - 1] == Repeat(48, k - 1) + s;
      LeadingZeros(k - 1, s);
    }
  }

  lemma {:induction false} CutWhole(s: Bytes, rest: Bytes)
    requires 0 !in s && (rest == [] || rest[0] == 0)
    ensures Cut(s + rest) == s
  {
    if s != [] {
      assert (s + rest)[1..] == s[1..] + rest;
      CutWhole(s[1..], rest);
    }
  }

  lemma {:induction false} DigitsWhole(s: Bytes)
    requires forall b | b in s :: IsOctal(b)
    ensures Digits(s) == |s|
  {
    if s != [] { DigitsWhole(s[1..]); }
  }

  lemma PaddedDigits(v: nat, n: nat)
    requires n >= 1 && v < Pow8(n)
    ensures var s := PadStart(ToOctal(v), n); |s| == n && (forall b | b in s :: IsOctal(b)) && Value(s) == v
  {
    hide Pow8, Value;
    ToOctalFits(v, n);
    ToOctalValue(v);
    LeadingZeros(n - |ToOctal(v)|, ToOctal(v));
    assert |ToOctal(v)| == n ==> Repeat(48, 0) + ToOctal(v) == ToOctal(v);
  }

  lemma DigitsParse(s: Bytes)
    requires s != [] && forall b | b in s :: IsOctal(b)
    ensures 0 !in s && TrimEnd(TrimStart(s)) == s && ParseOctal(s) == Some(Value(s))
  {
    hide Value;
    DigitsWhole(s);
    assert s[..|s|] == s;
    assert s[0] in s && s[|s| - 1] in s;
  }

  /** A field that is wide enough reads back as the number written. */
  lemma OctalRoundTrip(v: nat, len: nat)
    requires len >= 2 && v < Pow8(len - 1)
    ensures var t := Cut(OctalField(v, len)); TrimEnd(TrimStart(t)) == t && t != [] && ParseOctal(t) == Some(v)
  {
    hide Pow8, Value, PadStart, ToOctal, TrimStart, TrimEnd, ParseOctal, Cut;
    var s := PadStart(ToOctal(v), len - 1);
    PaddedDigits(v, len - 1);
    assert s[..len - 1] == s;
    DigitsParse(s);
    CutWhole(s, [0]);
  }

  // ---------------------------------------------------------------------
  // Headers
  // ---------------------------------------------------------------------

  function Sum(s: Bytes): nat { if s == [] then 0 else Sum(s[..|s| - 1]) + s[|s| - 1] as int }

  lemma {:induction false} SumBound(s: Bytes)
    ensures Sum(s) <= 255 * |s|
  {
    if s != [] { SumBound(s[..|s| - 1]); }
  }

  /** A header's checksum always fits its six octal digits. */
  lemma ChecksumFits(h: Bytes)
    requires |h| == BLOCK
    ensures Sum(h) < Pow8(6)
  {
    SumBound(h);
    assert Pow8(3) == 512;
    assert Pow8(6) == 8 * 8 * 8 * Pow8(3);
  }

  /** A regular file's header with the given checksum field; owner, times and
      format are the template's. */
  function HeaderWith(template: Bytes, name: Bytes, size: nat, mode: nat, checksum: Bytes): (h: Bytes)
    requires |template| == BLOCK && |name| <= 99 && |checksum| == 8
    ensures |h| == BLOCK
  {
    name + Repeat(0, 100 - |name|) + OctalField(mode, 8) + template[108..124] + OctalField(size, 12) + template[136..148] +
    checksum + [48] + template[157..]
  }

  function HeaderSum(template: Bytes, name: Bytes, size: nat, mode: nat): nat
    requires |template| == BLOCK && |name| <= 99
  {
    Sum(HeaderWith(template, name, size, mode, Repeat(32, 8)))
  }

  function FileHeader(template: Bytes, name: Bytes, size: nat, mode: nat): (h: Bytes)
    requires |template| == BLOCK && |name| <= 99
    ensures |h| == BLOCK
  {
    HeaderWith(template, name, size, mode, OctalField(HeaderSum(template, name, size, mode), 7) + [32])
  }

  lemma Middle(a: Bytes, b: Bytes, c: Bytes)
    ensures (a + b + c)[|a|..|a| + |b|] == b
  {
  }

  /** The header's fields: the name, the size, a regular file. */
  lemma HeaderFields(template: Bytes, name: Bytes, size: nat, mode: nat, checksum: Bytes)
    requires |template| == BLOCK && |name| <= 99 && 0 !in name && |checksum| == 8
    ensures var h := HeaderWith(template, name, size, mode, checksum);
            && h[0..100] == name + Repeat(0, 100 - |name|) && h[124..136] == OctalField(size, 12)
            && h[148..156] == checksum && h[156] == 48
  {
    hide OctalField;
    var h := HeaderWith(template, name, size, mode, checksum);
    var a := name + Repeat(0, 100 - |name|);
    var b := a + OctalField(mode, 8) + template[108..124];
    var c := b + OctalField(size, 12) + template[136..148];
    assert |b| == 124 && |c| == 148;
    assert h == c + checksum + ([48] + template[157..]);
    Middle(c, checksum, [48] + template[157..]);
    assert h == b + OctalField(size, 12) + (template[136..148] + checksum + ([48] + template[157..]));
    Middle(b, OctalField(size, 12), template[136..148] + checksum + ([48] + template[157..]));
  }

  /** A written header reads back: its name, its size, and a checksum that is the
      sum of its bytes with the checksum field blank. */
  lemma HeaderRoundTrip(template: Bytes, name: Bytes, size: nat, mode: nat)
    requires |template| == BLOCK && |name| <= 99 && 0 !in name && size < Pow8(11)
    ensures var h := FileHeader(template, name, size, mode);
            && !AllZero(h) && Text(h, 0, 100) == name && SizeOf(h) == Some(size)
            && ParseOctal(Text(h, 148, 7)) == Some(Sum(h[..148] + Repeat(32, 8) + h[156..]))
  {
    hide AllZero, OctalField, HeaderWith, ParseOctal, TrimStart, TrimEnd, Cut, Sum, Repeat;
    var sum := HeaderSum(template, name, size, mode);
    var h := FileHeader(template, name, size, mode);
    HeaderFields(template, name, size, mode, OctalField(sum, 7) + [32]);
    CutWhole(name, Repeat(0, 100 - |name|));
    OctalRoundTrip(size, 12);
    NotAllZero(h);
    ChecksumFits(HeaderWith(template, name, size, mode, Repeat(32, 8)));
    OctalRoundTrip(sum, 7);
    assert h[148..155] == h[148..156][..7];
    assert (OctalField(sum, 7) + [32])[..7] == OctalField(sum, 7);
    Blanked(template, name, size, mode);
  }

  lemma NotAllZero(h: Bytes)
    requires |h| == BLOCK && h[156] == 48
    ensures !AllZero(h)
  {
    assert h[156] in h;
  }

  lemma Blanked(template: Bytes, name: Bytes, size: nat, mode: nat)
    requires |template| == BLOCK && |name| <= 99
    ensures var h := FileHeader(template, name, size, mode);
            h[..148] + Repeat(32, 8) + h[156..] == HeaderWith(template, name, size, mode, Repeat(32, 8))
  {
    hide OctalField;
    var front := name + Repeat(0, 100 - |name|) + OctalField(mode, 8) + template[108..124] + OctalField(size, 12) + template[136..148];
    var back := [48] + template[157..];
    assert |front| == 148;
    var h := FileHeader(template, name, size, mode);
    var sum := OctalField(HeaderSum(template, name, size, mode), 7) + [32];
    assert h == front + sum + back;
    assert h[..148] == front && h[156..] == back;
  }

  /** octal: writes the field into a header buffer. */
  method WriteOctal(h: array<Byte>, off: nat, len: nat, value: nat)
    requires len >= 1 && off + len <= h.Length
    modifies h
    ensures h[..] == old(h[..off]) + OctalField(value, len) + old(h[off + len..])
  {
    hide ToOctal, Repeat;
    var s := PadStart(ToOctal(value), len - 1);
    for i := 0 to len - 1
      invariant h[..off] == old(h[..off]) && h[off..off + i] == s[..i] && h[off + i..] == old(h[off + i..])
    {
      h[off + i] := s[i];
      assert h[off..off + i + 1] == h[off..off + i] + [s[i]];
      assert h[off + i + 1..] == old(h[off + i..])[1..];
    }
    ghost var tail := h[off + len - 1..];
    h[off + len - 1] := 0;
    assert h[off..off + len] == s[..len - 1] + [0];
    assert h[off + len..] == tail[1..];
    assert h[..] == h[..off] + h[off..off + len] + h[off + len..];
  }

  method Fill(h: array<Byte>, from: nat, to: nat, b: Byte)
    requires from <= to <= h.Length
    modifies h
    ensures h[..] == old(h[..from]) + Repeat(b, to - from) + old(h[to..])
  {
    for i := from to to
      invariant h[..from] == old(h[..from]) && h[from..i] == Repeat(b, i - from) && h[i..] == old(h[i..])
    {
      h[i] := b;
      assert h[i + 1..] == old(h[i..])[1..];
      assert h[from..i + 1] == h[from..i] + [b];
    }
    assert h[..] == h[..from] + h[from..to] + h[to..];
  }

  /** h.set(n, 0). */
  method SetStart(h: array<Byte>, n: Bytes)
    requires |n| <= h.Length
    modifies h
    ensures h[..] == n + old(h[|n|..])
  {
    for i := 0 to |n|
      invariant h[..i] == n[..i] && h[i..] == old(h[i..])
    {
      h[i] := n[i];
      assert h[i + 1..] == old(h[i..])[1..];
    }
    assert h[..] == h[..|n|] + h[|n|..];
  }

  method SumOf(h: array<Byte>) returns (sum: nat)
    ensures sum == Sum(h[..])
  {
    sum := 0;
    for i := 0 to h.Length
      invariant sum == Sum(h[..i])
    {
      sum := sum + h[i] as int;
      assert h[..i + 1][..i] == h[..i];
    }
    assert h[..h.Length] == h[..];
  }

  /** fileHeader, on a copy of the template header. */
  method BuildHeader(template: Bytes, name: Bytes, size: nat, mode: nat) returns (r: Result<Bytes, TarError>)
    requires |template| == BLOCK
    ensures r == if |name| > 99 then Err(PathTooLong) else Ok(FileHeader(template, name, size, mode))
  {
    if |name| > 99 {
      return Err(PathTooLong);
    }
    var h := new Byte[BLOCK](i requires 0 <= i < BLOCK => template[i]);
    assert h[..] == template;
    Fill(h, 0, 100, 0);
    SetStart(h, name);
    ghost var n := name + Repeat(0, 100 - |name|);
    assert h[..] == n + template[100..];
    WriteMode(h, n, template, mode);
    WriteSize(h, n, template, mode, size);
    BlankChecksum(h, template, name, size, mode);
    var sum := SumOf(h);
    WriteChecksum(h, template, name, size, mode, sum);
    r := Ok(h[..]);
  }

  method WriteMode(h: array<Byte>, ghost n: Bytes, ghost template: Bytes, mode: nat)
    requires |n| == 100 && |template| == BLOCK && h.Length == BLOCK && h[..] == n + template[100..]
    modifies h
    ensures h[..] == n + OctalField(mode, 8) + template[108..]
  {
    hide OctalField;
    assert h[..100] == n && h[108..] == template[108..];
    WriteOctal(h, 100, 8, mode);
  }

  method WriteSize(h: array<Byte>, ghost n: Bytes, ghost template: Bytes, ghost mode: nat, size: nat)
    requires |n| == 100 && |template| == BLOCK && h.Length == BLOCK && h[..] == n + OctalField(mode, 8) + template[108..]
    modifies h
    ensures h[..] == n + OctalField(mode, 8) + template[108..124] + OctalField(size, 12) + template[136..]
  {
    hide OctalField;
    assert h[..124] == n + OctalField(mode, 8) + template[108..124];
    assert h[136..] == template[136..];
    WriteOctal(h, 124, 12, size);
  }

  method BlankChecksum(h: array<Byte>, ghost template: Bytes, ghost name: Bytes, ghost size: nat, ghost mode: nat)
    requires |name| <= 99 && |template| == BLOCK && h.Length == BLOCK
    requires h[..] == name + Repeat(0, 100 - |name|) + OctalField(mode, 8) + template[108..124] + OctalField(size, 12) + template[136..]
    modifies h
    ensures h[..] == HeaderWith(template, name, size, mode, Repeat(32, 8))
  {
    hide OctalField;
    ghost var front := name + Repeat(0, 100 - |name|) + OctalField(mode, 8) + template[108..124] + OctalField(size, 12) + template[136..148];
    assert |front| == 148;
    assert h[..148] == front && h[157..] == template[157..];
    h[156] := 48;
    assert h[..148] == front && h[156..] == [48] + template[157..];
    Fill(h, 148, 156, 32);
  }

  method WriteChecksum(h: array<Byte>, ghost template: Bytes, ghost name: Bytes, ghost size: nat, ghost mode: nat, sum: nat)
    requires |name| <= 99 && |template| == BLOCK && h.Length == BLOCK && sum == HeaderSum(template, name, size, mode)
    requires h[..] == HeaderWith(template, name, size, mode, Repeat(32, 8))
    modifies h
    ensures h[..] == FileHeader(template, name, size, mode)
  {
    hide OctalField, HeaderSum;
    ghost var front := name + Repeat(0, 100 - |name|) + OctalField(mode, 8) + template[108..124] + OctalField(size, 12) + template[136..148];
    ghost var back := [48] + template[157..];
    assert h[..] == front + Repeat(32, 8) + back;
    assert h[..148] == front && h[155..] == [32] + back;
    WriteOctal(h, 148, 7, sum);
    assert h[..] == front + OctalField(sum, 7) + ([32] + back);
    assert h[155] == 32;
    h[155] := 32;
    assert h[..] == front + (OctalField(sum, 7) + [32]) + back;
  }

  // ---------------------------------------------------------------------
  // Writing
  // ---------------------------------------------------------------------

  function Written(e: Entry): Bytes { e.header + e.data + Repeat(0, Padded(|e.data|) - |e.data|) }

  function Blocks(es: seq<Entry>): Bytes { if es == [] then [] else Written(es[0]) + Blocks(es[1..]) }

  function Archive(es: seq<Entry>): Bytes { Blocks(es) + Repeat(0, 2 * BLOCK) }

  /** An entry as a complete archive has them. */
  ghost predicate Complete(e: Entry) {
    && |e.header| == BLOCK && !AllZero(e.header)
    && e.name == Text(e.header, 0, 100) && SizeOf(e.header) == Some(|e.data|)
  }

  /** An entry that was read; its data may be cut short. */
  ghost predicate Headed(e: Entry) {
    && |e.header| == BLOCK && !AllZero(e.header) && e.name == Text(e.header, 0, 100)
    && SizeOf(e.header).Some? && |e.data| <= SizeOf(e.header).value
  }

  lemma PaddedCovers(n: nat)
    ensures Padded(n) >= n
  {
  }

  /** Only the last entry of what was read can be cut short. */
  lemma {:induction false} ReadEntries(bytes: Bytes, es: seq<Entry>)
    requires Read(bytes) == Some(es)
    ensures forall i | 0 <= i < |es| :: Headed(es[i]) && (i + 1 < |es| ==> Complete(es[i]))
    decreases |bytes|
  {
    hide AllZero, Text, SizeOf, Padded, Complete, Headed;
    if es != [] {
      var size := SizeOf(bytes[..BLOCK]).value;
      var rest := Drop(bytes, BLOCK + Padded(size));
      assert es[0] == EntryOf(bytes[..BLOCK], bytes[BLOCK..], size);
      assert es[1..] == Read(rest).value;
      ReadEntries(rest, es[1..]);
      FirstEntry(bytes, size);
      forall i | 1 <= i < |es| ensures Headed(es[i]) && (i + 1 < |es| ==> Complete(es[i])) {
        assert es[i] == es[1..][i - 1];
      }
    }
  }

  lemma FirstEntry(bytes: Bytes, size: nat)
    requires |bytes| >= BLOCK && !AllZero(bytes[..BLOCK]) && SizeOf(bytes[..BLOCK]) == Some(size)
    ensures var e := EntryOf(bytes[..BLOCK], bytes[BLOCK..], size);
            Headed(e) && (|Drop(bytes, BLOCK + Padded(size))| > 0 ==> Complete(e))
  {
    hide AllZero, Text, SizeOf;
    PaddedCovers(size);
  }

  lemma ReadOne(e: Entry, rest: Bytes)
    requires Complete(e)
    ensures Read(Written(e) + rest) == match Read(rest) case None => None case Some(es) => Some([e] + es)
  {
    hide SizeOf, Text, AllZero;
    var bytes := Written(e) + rest;
    assert bytes[..BLOCK] == e.header;
    assert bytes[BLOCK..] == e.data + (Repeat(0, Padded(|e.data|) - |e.data|) + rest);
    assert Take(bytes[BLOCK..], |e.data|) == e.data;
    assert |Written(e)| == BLOCK + Padded(|e.data|);
    assert Drop(bytes, BLOCK + Padded(|e.data|)) == rest;
  }

  /** What is written reads back. */
  lemma {:induction false} ReadsBack(es: seq<Entry>)
    requires forall e | e in es :: Complete(e)
    ensures Read(Archive(es)) == Some(es)
  {
    hide Complete, Read, Written, Repeat;
    if es == [] {
      assert Archive(es) == Repeat(0, 2 * BLOCK);
      ReadEnd();
    } else {
      ReadsBack(es[1..]);
      assert Archive(es) == Written(es[0]) + Archive(es[1..]);
      ReadOne(es[0], Archive(es[1..]));
      assert [es[0]] + es[1..] == es;
    }
  }

  /** An entry that was cut short does not: it reads on into what follows it. */
  lemma ReadCut(e: Entry, rest: Bytes)
    requires Headed(e) && !Complete(e) && |rest| > 0
    ensures var r := Read(Written(e) + rest); r.Some? ==> r.value != [] && r.value[0] != e
  {
    hide SizeOf, Text, AllZero, Padded, Read, Written, Repeat;
    var bytes, size := Written(e) + rest, SizeOf(e.header).value;
    WrittenParts(e, rest);
    PaddedCovers(|e.data|);
    ReadFirst(bytes);
    assert |Take(bytes[BLOCK..], size)| > |e.data|;
  }

  lemma WrittenParts(e: Entry, rest: Bytes)
    requires |e.header| == BLOCK
    ensures var bytes := Written(e) + rest;
            |bytes| == BLOCK + Padded(|e.data|) + |rest| >= BLOCK && bytes[..BLOCK] == e.header
  {
    hide Padded, Repeat;
    PaddedCovers(|e.data|);
  }

  /** The first entry read is the one of the first header. */
  lemma ReadFirst(bytes: Bytes)
    requires |bytes| >= BLOCK && !AllZero(bytes[..BLOCK]) && SizeOf(bytes[..BLOCK]).Some?
    ensures Read(bytes).Some? ==>
              Read(bytes).value != [] && Read(bytes).value[0] == EntryOf(bytes[..BLOCK], bytes[BLOCK..], SizeOf(bytes[..BLOCK]).value)
  {
    hide SizeOf, AllZero, EntryOf, Drop, Padded;
  }

  lemma CompleteIsHeaded(e: Entry)
    requires Complete(e)
    ensures Headed(e)
  {
  }

  /** Entries as they were read read back exactly when none of them was cut short. */
  lemma {:induction false} ReadsBackIff(es: seq<Entry>)
    requires forall e | e in es :: Headed(e)
    ensures Read(Archive(es)) == Some(es) <==> forall e | e in es :: Complete(e)
  {
    hide Complete, Headed, Read, Written, Repeat;
    if es != [] {
      ReadsBackIff(es[1..]);
      assert Archive(es) == Written(es[0]) + Archive(es[1..]);
      if Complete(es[0]) {
        ReadOne(es[0], Archive(es[1..]));
        assert [es[0]] + es[1..] == es;
        assert forall e | e in es :: e == es[0] || e in es[1..];
        assert Read(Archive(es)) == Some(es) ==> Read(Archive(es[1..])) == Some(es[1..]) by {
          if Read(Archive(es)) == Some(es) {
            var rest := Read(Archive(es[1..])).value;
            assert ([es[0]] + rest)[1..] == rest;
          }
        }
      } else {
        assert es[0] in es;
        ReadCut(es[0], Archive(es[1..]));
      }
    } else {
      ReadsBack(es);
    }
  }

  lemma ReadEnd()
    ensures Read(Repeat(0, 2 * BLOCK)) == Some([])
  {
    var zeros := Repeat(0, 2 * BLOCK);
    assert forall b | b in zeros[..BLOCK] :: b == 0;
  }

  lemma {:induction false} BlocksAppend(es: seq<Entry>, e: Entry)
    ensures Blocks(es + [e]) == Blocks(es) + Written(e)
  {
    hide Written;
    if es == [] {
      assert es + [e] == [e];
      assert Blocks([e]) == Written(e) + Blocks([e][1..]);
    } else {
      assert (es + [e])[1..] == es[1..] + [e];
      BlocksAppend(es[1..], e);
    }
  }

  // ---------------------------------------------------------------------
  // The customized package
  // ---------------------------------------------------------------------

  /** What is before the first slash. */
  function Top(name: Bytes): Bytes { if name == [] || name[0] == 47 then [] else [name[0]] + Top(name[1..]) }

  /** "/DOMAIN" and "/TOKEN". */
  const DOMAIN: Bytes := [47, 68, 79, 77, 65, 73, 78]
  const TOKEN: Bytes := [47, 84, 79, 75, 69, 78]

  function Find(es: seq<Entry>, name: Bytes): (i: Option<nat>)
    ensures i.Some? ==> i.value < |es| && es[i.value].name == name && forall j | 0 <= j < i.value :: es[j].name != name
    ensures i.None? ==> forall e | e in es :: e.name != name
  {
    if es == [] then None
    else if es[0].name == name then Some(0)
    else match Find(es[1..], name) case None => None case Some(i) => Some(i + 1)
  }

  function NewFile(template: Bytes, name: Bytes, data: Bytes, mode: nat): Entry
    requires |template| == BLOCK && |name| <= 99
  {
    Entry(name, FileHeader(template, name, |data|, mode), data)
  }

  /** The first n entries without the token's, the one at place d with the new data. */
  function Kept(es: seq<Entry>, n: nat, d: nat, token: Bytes, changed: Entry): seq<Entry>
    requires n <= |es|
  {
    if n == 0 then [] else
      var less := Kept(es, n - 1, d, token, changed);
      if es[n - 1].name == token then less else less + [if n - 1 == d then changed else es[n - 1]]
  }

  /** The package's entries: the template's in order without an old TOKEN and with
      DOMAIN's data replaced, and the new TOKEN last. */
  function Package(es: seq<Entry>, d: nat, domain: Bytes, token: Bytes): seq<Entry>
    requires d < |es| && |es[d].header| == BLOCK && |Top(es[0].name)| + 7 <= 99
  {
    var top, header := Top(es[0].name), es[d].header;
    Kept(es, |es|, d, top + TOKEN, NewFile(header, top + DOMAIN, domain + [10], 0x1A4)) +
    [NewFile(header, top + TOKEN, token + [10], 0x180)]
  }

  /** customize. */
  method Customize(es: seq<Entry>, domain: Bytes, token: Bytes) returns (r: Result<Bytes, TarError>)
    requires es != [] && forall e | e in es :: |e.header| == BLOCK
    ensures var top := Top(es[0].name);
            r == match Find(es, top + DOMAIN)
                 case None => Err(NoDomain)
                 case Some(d) => if |top| + 7 > 99 then Err(PathTooLong) else Ok(Archive(Package(es, d, domain, token)))
  {
    hide FileHeader, Written, Repeat;
    var top := Top(es[0].name);
    var found := Find(es, top + DOMAIN);
    if found.None? {
      return Err(NoDomain);
    }
    var d := found.value;
    if |top| + 7 > 99 {
      return Err(PathTooLong);
    }
    var domainData := domain + [10];
    var changed := BuildHeader(es[d].header, top + DOMAIN, |domainData|, 0x1A4);
    ghost var swapped := NewFile(es[d].header, top + DOMAIN, domainData, 0x1A4);
    var parts: Bytes := [];
    for i := 0 to |es|
      invariant parts == Blocks(Kept(es, i, d, top + TOKEN, swapped))
    {
      if es[i].name != top + TOKEN {
        var e := if i == d then Entry(top + DOMAIN, changed.value, domainData) else es[i];
        BlocksAppend(Kept(es, i, d, top + TOKEN, swapped), e);
        parts := parts + Written(e);
      }
    }
    var tokenData := token + [10];
    var header := BuildHeader(es[d].header, top + TOKEN, |tokenData|, 0x180);
    BlocksAppend(Kept(es, |es|, d, top + TOKEN, swapped), Entry(top + TOKEN, header.value, tokenData));
    parts := parts + Written(Entry(top + TOKEN, header.value, tokenData));
    r := Ok(parts + Repeat(0, 2 * BLOCK));
  }

  // ---------------------------------------------------------------------
  // The round trip
  // ---------------------------------------------------------------------

  lemma {:induction false} TopNoNul(name: Bytes)
    requires 0 !in name
    ensures 0 !in Top(name)
  {
    if name != [] && name[0] != 47 {
      TopNoNul(name[1..]);
    }
  }

  lemma NewFileIsComplete(template: Bytes, name: Bytes, data: Bytes, mode: nat)
    requires |template| == BLOCK && |name| <= 99 && 0 !in name && |data| < Pow8(11)
    ensures Complete(NewFile(template, name, data, mode)) && NewFile(template, name, data, mode).name == name
  {
    hide FileHeader, SizeOf, Text, AllZero, Pow8;
    HeaderRoundTrip(template, name, |data|, mode);
  }

  /** The entries of any other name, in order. */
  function Without(es: seq<Entry>, name: Bytes): seq<Entry> {
    if es == [] then [] else
      Without(es[..|es| - 1], name) + if es[|es| - 1].name == name then [] else [es[|es| - 1]]
  }

  lemma {:induction false} WithoutIs(es: seq<Entry>, name: Bytes)
    ensures forall e :: e in Without(es, name) <==> e in es && e.name != name
  {
    if es != [] {
      WithoutIs(es[..|es| - 1], name);
      assert forall e :: e in es <==> e in es[..|es| - 1] || e == es[|es| - 1];
    }
  }

  /** What is kept is the template with the one entry replaced, less the token's. */
  lemma {:induction false} KeptIsRest(es: seq<Entry>, n: nat, d: nat, token: Bytes, changed: Entry)
    requires n <= |es| && d < |es| && changed.name == es[d].name
    ensures Kept(es, n, d, token, changed) == Without(es[d := changed][..n], token)
  {
    if n > 0 {
      KeptIsRest(es, n - 1, d, token, changed);
      assert es[d := changed][..n][..n - 1] == es[d := changed][..n - 1];
    }
  }

  /** The new DOMAIN file at the place of the old one. */
  function DomainReplaced(es: seq<Entry>, d: nat, domain: Bytes): seq<Entry>
    requires d < |es| && |es[d].header| == BLOCK && |Top(es[0].name)| + 7 <= 99
  {
    es[d := NewFile(es[d].header, Top(es[0].name) + DOMAIN, domain + [10], 0x1A4)]
  }

  /** The template's last entry is complete, or its data does not go into the package. */
  ghost predicate Whole(es: seq<Entry>, d: nat, token: Bytes)
    requires es != []
  {
    var last := es[|es| - 1];
    Complete(last) || d == |es| - 1 || last.name == token
  }

  lemma PackageIs(es: seq<Entry>, d: nat, domain: Bytes, token: Bytes)
    requires d < |es| && |es[d].header| == BLOCK && |Top(es[0].name)| + 7 <= 99 && es[d].name == Top(es[0].name) + DOMAIN
    ensures var name := Top(es[0].name) + TOKEN;
            Package(es, d, domain, token) ==
            Without(DomainReplaced(es, d, domain), name) + [NewFile(es[d].header, name, token + [10], 0x180)]
  {
    hide FileHeader, Kept, Without, Top;
    var top := Top(es[0].name);
    var swapped := NewFile(es[d].header, top + DOMAIN, domain + [10], 0x1A4);
    KeptIsRest(es, |es|, d, top + TOKEN, swapped);
    assert es[d := swapped][..|es|] == es[d := swapped];
  }

  /** The package's entries are headed, and all complete exactly when the template was
      whole. */
  lemma PackageComplete(es: seq<Entry>, d: nat, swapped: Entry, added: Entry, token: Bytes)
    requires d < |es| && Complete(swapped) && Complete(added) && swapped.name == es[d].name != token
    requires forall i | 0 <= i < |es| :: Headed(es[i]) && (i + 1 < |es| ==> Complete(es[i]))
    ensures var all := Without(es[d := swapped], token) + [added];
            && (forall e | e in all :: Headed(e))
            && ((forall e | e in all :: Complete(e)) <==> Whole(es, d, token))
  {
    hide Complete, Headed, Without;
    var es' := es[d := swapped];
    var all := Without(es', token) + [added];
    WithoutIs(es', token);
    CompleteIsHeaded(swapped);
    CompleteIsHeaded(added);
    assert forall e :: e in all <==> e in Without(es', token) || e == added;
    forall e | e in es' ensures Headed(e) { var i :| 0 <= i < |es'| && es'[i] == e; }
    if Whole(es, d, token) {
      forall e | e in es' && e.name != token ensures Complete(e) { var i :| 0 <= i < |es'| && es'[i] == e; }
    } else {
      var last := es[|es| - 1];
      assert es'[|es| - 1] == last && last in es';
      assert last in all;
    }
  }

  /** Reading the customized package gives the template's entries, unchanged and in
      order, with the new DOMAIN file at the old one's place, without any old TOKEN, and
      the new TOKEN file last; exactly when the template was not cut short in an entry
      that is kept. */
  lemma PackageRoundTrip(template: Bytes, es: seq<Entry>, d: nat, domain: Bytes, token: Bytes)
    requires Read(template) == Some(es) && es != []
    requires Find(es, Top(es[0].name) + DOMAIN) == Some(d)
    requires |Top(es[0].name)| + 7 <= 99 && |domain| + 1 < Pow8(11) && |token| + 1 < Pow8(11)
    ensures |es[d].header| == BLOCK
    ensures var name := Top(es[0].name) + TOKEN;
            Read(Archive(Package(es, d, domain, token))) ==
            Some(Without(DomainReplaced(es, d, domain), name) + [NewFile(es[d].header, name, token + [10], 0x180)]) <==>
            Whole(es, d, name)
  {
    hide FileHeader, Pow8, Read, Archive, SizeOf, Text, AllZero, NewFile, Kept, Without, Complete, Find, Top, Whole;
    var top := Top(es[0].name);
    ReadEntries(template, es);
    assert Headed(es[0]) && Headed(es[d]);
    NameHasNoNul(es[0].header);
    TopNoNul(es[0].name);
    var swapped := NewFile(es[d].header, top + DOMAIN, domain + [10], 0x1A4);
    var added := NewFile(es[d].header, top + TOKEN, token + [10], 0x180);
    NewFileIsComplete(es[d].header, top + DOMAIN, domain + [10], 0x1A4);
    NewFileIsComplete(es[d].header, top + TOKEN, token + [10], 0x180);
    assert (top + DOMAIN)[|top| + 1] != (top + TOKEN)[|top| + 1];
    PackageIs(es, d, domain, token);
    PackageComplete(es, d, swapped, added, top + TOKEN);
    ReadsBackIff(Package(es, d, domain, token));
  }

  /** A template of DOMAIN and a file that ends in the middle of the file: it is read,
      and does not read back. */
  lemma CutTemplate() returns (template: Bytes, es: seq<Entry>)
    ensures Read(template) == Some(es) && |es| == 2 && Find(es, Top(es[0].name) + DOMAIN) == Some(0)
    ensures !Whole(es, 0, Top(es[0].name) + TOKEN)
  {
    hide FileHeader, SizeOf, Text, AllZero, Repeat, Pow8, Written;
    var zeros := Repeat(0, BLOCK);
    var first := NewFile(zeros, [112] + DOMAIN, [], 0);
    var file := NewFile(zeros, [112, 47, 70], [7, 7], 0);
    Pow8AtLeast();
    NewFileIsComplete(zeros, [112] + DOMAIN, [], 0);
    NewFileIsComplete(zeros, [112, 47, 70], [7, 7], 0);
    var cut := Entry(file.name, file.header, [7]);
    template := Written(first) + (file.header + [7]);
    es := [first, cut];
    ReadLast(file);
    ReadOne(first, file.header + [7]);
    assert [first] + [cut] == es;
    TopIs(first.name);
    assert Top(first.name) == [112];
  }

  lemma Pow8AtLeast()
    ensures 2 < Pow8(11)
  {
    assert Pow8(1) == 8;
    Pow8Grows(1, 11);
  }

  lemma {:induction false} Pow8Grows(a: nat, b: nat)
    requires a <= b
    ensures Pow8(a) <= Pow8(b)
  {
    if a < b { Pow8Grows(a, b - 1); }
  }

  lemma TopIs(name: Bytes)
    requires |name| > 1 && name[0] != 47 && name[1] == 47
    ensures Top(name) == [name[0]]
  {
    assert Top(name[1..]) == [];
  }

  lemma ReadLast(file: Entry)
    requires Complete(file) && |file.data| == 2
    ensures Read(file.header + [7]) == Some([Entry(file.name, file.header, [7])])
  {
    hide SizeOf, Text, AllZero;
    var bytes := file.header + [7];
    assert bytes[..BLOCK] == file.header && bytes[BLOCK..] == [7];
    assert Drop(bytes, BLOCK + Padded(2)) == [];
    assert Read([]) == Some([]);
    var cut := Entry(file.name, file.header, [7]);
    assert EntryOf(file.header, [7], 2) == cut;
    assert [cut] + [] == [cut];
  }

  lemma NameHasNoNul(header: Bytes)
    requires |header| == BLOCK
    ensures 0 !in Text(header, 0, 100)
  {
  }
}
