/** What the fields of a tar header mean, byte by byte (the ustar Interchange Format of
    the pax utility, IEEE Std 1003.1). */
module TarFields {
  import opened Wrappers
  import opened Tar

  // ---------------------------------------------------------------------
  // The size
  // ---------------------------------------------------------------------

  predicate Blank(b: Byte) { b == 9 || b == 10 || b == 11 || b == 12 || b == 13 || b == 32 }

  /** The text is blank and the size 0, or it has octal digits after blanks, and the size
      is what they write. */
  ghost predicate Writes(t: Bytes, v: nat) {
    || (v == 0 && forall b | b in t :: Blank(b))
    || exists i, j :: 0 <= i < j <= |t| && DigitsAt(t, i, j) && Number(t[i..j], v)
  }

  /** After blanks, the digits from i up to j, and no more. */
  predicate DigitsAt(t: Bytes, i: int, j: int)
    requires 0 <= i < j <= |t|
  {
    && (forall k | 0 <= k < i :: Blank(t[k]))
    && (forall k | i <= k < j :: 48 <= t[k] <= 55)
    && (j < |t| ==> !(48 <= t[j] <= 55))
  }

  /** v in octal. */
  predicate Number(s: Bytes, v: nat)
    decreases |s|
  {
    if s == [] then v == 0 else 48 <= s[|s| - 1] <= 55 && v % 8 == s[|s| - 1] as int - 48 && Number(s[..|s| - 1], v / 8)
  }

  lemma {:induction false} NumberIs(s: Bytes, v: nat)
    requires forall b | b in s :: IsOctal(b)
    ensures Number(s, v) <==> v == Value(s)
  {
    if s != [] {
      var init := s[..|s| - 1];
      NumberIs(init, v / 8);
      assert s[|s| - 1] in s;
      assert Value(s) / 8 == Value(init) && Value(s) % 8 == Digit(s[|s| - 1]);
    }
  }

  lemma {:induction false} TrimStartIs(t: Bytes) returns (i: nat)
    ensures i <= |t| && TrimStart(t) == t[i..] && (forall k | 0 <= k < i :: Blank(t[k])) && (i < |t| ==> !Blank(t[i]))
  {
    if t != [] && IsSpace(t[0]) {
      var j := TrimStartIs(t[1..]);
      i := j + 1;
      assert t[1..][j..] == t[i..];
      forall k | 0 <= k < i ensures Blank(t[k]) { if k > 0 { assert t[k] == t[1..][k - 1]; } }
    } else {
      i := 0;
      assert t[0..] == t;
    }
  }

  lemma {:induction false} TrimEndIs(t: Bytes) returns (j: nat)
    ensures j <= |t| && TrimEnd(t) == t[..j] && (forall k | j <= k < |t| :: Blank(t[k])) && (j > 0 ==> !Blank(t[j - 1]))
  {
    if t != [] && IsSpace(t[|t| - 1]) {
      j := TrimEndIs(t[..|t| - 1]);
      assert t[..|t| - 1][..j] == t[..j];
      forall k | j <= k < |t| ensures Blank(t[k]) { if k < |t| - 1 { assert t[k] == t[..|t| - 1][k]; } }
    } else {
      j := |t|;
      assert t[..|t|] == t;
    }
  }

  lemma {:induction false} DigitsIs(s: Bytes)
    ensures var n := Digits(s); (forall k | 0 <= k < n :: 48 <= s[k] <= 55) && (n < |s| ==> !(48 <= s[n] <= 55))
  {
    if s != [] && IsOctal(s[0]) {
      DigitsIs(s[1..]);
      var n := Digits(s);
      forall k | 0 <= k < n ensures 48 <= s[k] <= 55 { if k > 0 { assert s[k] == s[1..][k - 1]; } }
      if n < |s| { assert s[n] == s[1..][n - 1]; }
    }
  }

  /** What the field is trimmed to. */
  lemma TrimmedIs(t: Bytes) returns (i: nat, j: nat)
    ensures i <= j <= |t| && TrimEnd(TrimStart(t)) == t[i..j]
    ensures (forall k | 0 <= k < i :: Blank(t[k])) && (forall k | j <= k < |t| :: Blank(t[k]))
    ensures i < j ==> !Blank(t[i])
    ensures i == j ==> forall b | b in t :: Blank(b)
  {
    i := TrimStartIs(t);
    var m := TrimEndIs(t[i..]);
    j := i + m;
    assert t[i..][..m] == t[i..j];
    forall k | j <= k < |t| ensures Blank(t[k]) { assert t[k] == t[i..][k - i]; }
    if i == j {
      forall b | b in t ensures Blank(b) {
        var k :| 0 <= k < |t| && t[k] == b;
      }
    } else {
      assert i < |t|;
    }
  }

  /** The trimmed text has the digits the text has. */
  lemma TrimmedWrites(t: Bytes, i: nat, j: nat, v: nat)
    requires i < j <= |t| && !Blank(t[i])
    requires (forall k | 0 <= k < i :: Blank(t[k])) && (forall k | j <= k < |t| :: Blank(t[k]))
    ensures Writes(t, v) <==> ParseOctal(t[i..j]) == Some(v)
  {
    hide Number, Value, DigitsAt, Digits;
    var s := t[i..j];
    var n := Digits(s);
    DigitsAreOctal(s);
    DigitsIs(s);
    assert s[0] == t[i];
    assert t[i] in t;
    if n > 0 {
      TrimmedRun(t, i, j, n);
      assert s[..n] == t[i..i + n];
      NumberIs(s[..n], v);
      if Writes(t, v) {
        var a, b :| 0 <= a < b <= |t| && DigitsAt(t, a, b) && Number(t[a..b], v);
        OneRun(t, i, i + n, a, b);
      }
    } else {
      forall a, b | 0 <= a < b <= |t| ensures !DigitsAt(t, a, b) { NoRun(t, i, a, b); }
    }
  }

  lemma TrimmedRun(t: Bytes, i: nat, j: nat, n: nat)
    requires i < i + n <= j <= |t| && forall k | 0 <= k < i :: Blank(t[k])
    requires (forall k | j <= k < |t| :: Blank(t[k])) && (forall k | 0 <= k < n :: 48 <= t[i..j][k] <= 55)
    requires i + n < j ==> !(48 <= t[i..j][n] <= 55)
    ensures DigitsAt(t, i, i + n)
  {
    forall k | i <= k < i + n ensures 48 <= t[k] <= 55 { assert t[k] == t[i..j][k - i]; }
    if i + n < j { assert t[i + n] == t[i..j][n]; }
  }

  lemma OneRun(t: Bytes, i: int, j: int, a: int, b: int)
    requires 0 <= i < j <= |t| && 0 <= a < b <= |t| && DigitsAt(t, i, j) && DigitsAt(t, a, b)
    ensures a == i && b == j
  {
    assert !Blank(t[i]) && !Blank(t[a]);
  }

  lemma NoRun(t: Bytes, i: int, a: int, b: int)
    requires 0 <= i < |t| && !Blank(t[i]) && !(48 <= t[i] <= 55) && (forall k | 0 <= k < i :: Blank(t[k]))
    requires 0 <= a < b <= |t|
    ensures !DigitsAt(t, a, b)
  {
    if a < i { assert Blank(t[a]); }
  }

  /** The size of an entry is what the text of bytes 124 to 135, up to a NUL, writes; it
      is no number exactly when nothing is written there. */
  lemma SizeExactly(header: Bytes, n: nat, v: nat)
    requires |header| == 512 && n <= 12
    requires (forall k | 124 <= k < 124 + n :: header[k] != 0) && (n < 12 ==> header[124 + n] == 0)
    ensures SizeOf(header) == Some(v) <==> Writes(header[124..124 + n], v)
  {
    hide Writes, ParseOctal;
    var f, t := header[124..136], header[124..124 + n];
    CutExactly(f, n);
    assert f[..n] == t;
    var i, j := TrimmedIs(t);
    if i < j {
      TrimmedWrites(t, i, j, v);
    } else {
      BlankWrites(t, v);
      ZeroParses();
    }
  }

  lemma CutExactly(f: Bytes, n: nat)
    requires n <= |f| && (forall k | 0 <= k < n :: f[k] != 0) && (n < |f| ==> f[n] == 0)
    ensures Cut(f) == f[..n]
  {
    var c := Cut(f);
    assert forall k | 0 <= k < |c| :: c[k] == f[k] && c[k] in c;
  }

  lemma BlankWrites(t: Bytes, v: nat)
    requires forall b | b in t :: Blank(b)
    ensures Writes(t, v) <==> v == 0
  {
    forall i, j | 0 <= i < j <= |t| ensures !DigitsAt(t, i, j) { assert t[i] in t; }
  }

  lemma ZeroParses()
    ensures ParseOctal([48]) == Some(0)
  {
    assert [48 as Byte][1..] == [];
    assert Digits([48]) == 1;
    assert [48 as Byte][..1] == [48] && [48 as Byte][..0] == [];
    assert Value([48 as Byte][..0]) == 0;
  }

  // ---------------------------------------------------------------------
  // Blocks
  // ---------------------------------------------------------------------

  /** Data is padded to whole blocks of 512 bytes, and no further. */
  lemma PaddedMeans(n: nat)
    ensures Padded(n) % 512 == 0 && n <= Padded(n) < n + 512
  {
  }

  // ---------------------------------------------------------------------
  // A written header
  // ---------------------------------------------------------------------

  /** The name with NULs up to byte 99, the mode, the size and the checksum in their
      fields, a regular file's type; every other byte is the template's. */
  lemma HeaderLayout(template: Bytes, name: Bytes, size: nat, mode: nat)
    requires |template| == 512 && |name| <= 99 && 0 !in name && size < Pow8(11) && mode < Pow8(7)
    ensures var h := FileHeader(template, name, size, mode);
            && h[..|name|] == name && (forall k | |name| <= k < 100 :: h[k] == 0)
            && ParseOctal(Text(h, 100, 8)) == Some(mode) && h[107] == 0
            && ParseOctal(Text(h, 124, 12)) == Some(size) && h[135] == 0
            && h[154] == 0 && h[155] == 32 && h[156] == 48
            && h[108..124] == template[108..124] && h[136..148] == template[136..148] && h[157..] == template[157..]
  {
    hide OctalField, ParseOctal, Cut;
    var h := FileHeader(template, name, size, mode);
    var a := name + Repeat(0, 100 - |name|);
    var m, z := OctalField(mode, 8), OctalField(size, 12);
    var sum := OctalField(HeaderSum(template, name, size, mode), 7) + [32];
    assert h == a + m + template[108..124] + z + template[136..148] + sum + [48] + template[157..];
    assert h[100..108] == m && h[124..136] == z && h[148..156] == sum;
    OctalRoundTrip(mode, 8);
    OctalRoundTrip(size, 12);
    FieldEnds(mode, 8);
    FieldEnds(size, 12);
    FieldEnds(HeaderSum(template, name, size, mode), 7);
    assert h[107] == h[100..108][7] && h[135] == h[124..136][11] && h[154] == h[148..156][6] && h[155] == h[148..156][7];
  }

  lemma FieldEnds(v: nat, len: nat)
    requires len >= 1
    ensures OctalField(v, len)[len - 1] == 0
  {
  }
}
