/** String operations the JavaScript code uses: `trim`, `split` and the
    decimal rendering of a count. */
module Text {

  /** The whitespace `String.prototype.trim` removes (the ASCII blanks, the
      no-break space, the line terminators and the byte-order mark). */
  predicate IsSpace(c: char) {
    c == ' ' || c == '\t' || c == '\n' || c == '\r' || c == '\U{0B}' ||
    c == '\U{0C}' || c == '\U{A0}' || c == '\U{2028}' || c == '\U{2029}' || c == '\U{FEFF}'
  }

  /** `s` has no whitespace at either end. */
  predicate Trimmed(s: string) {
    s == [] || (!IsSpace(s[0]) && !IsSpace(s[|s| - 1]))
  }

  /** Drops leading whitespace: the result is the suffix of `s` that starts
      at its first non-blank character. */
  function TrimStart(s: string): (r: string)
    ensures |r| <= |s| && r == s[|s| - |r|..]
    ensures forall j :: 0 <= j < |s| - |r| ==> IsSpace(s[j])
    ensures r == [] || !IsSpace(r[0])
  {
    if s != [] && IsSpace(s[0]) then TrimStart(s[1..]) else s
  }

  /** Drops trailing whitespace: the result is the prefix of `s` that ends
      at its last non-blank character. */
  function TrimEnd(s: string): (r: string)
    ensures |r| <= |s| && r == s[..|r|]
    ensures forall j :: |r| <= j < |s| ==> IsSpace(s[j])
    ensures r == [] || !IsSpace(r[|r| - 1])
  {
    if s != [] && IsSpace(s[|s| - 1]) then TrimEnd(s[..|s| - 1]) else s
  }

  /** `String.prototype.trim`. */
  function Trim(s: string): (r: string)
    ensures Trimmed(r) && |r| <= |s|
    ensures r == [] <==> forall j :: 0 <= j < |s| ==> IsSpace(s[j])
  {
    var t := TrimStart(s);
    var r := TrimEnd(t);
    assert r != [] ==> r[0] == t[0];
    assert r == [] ==> t == [];
    r
  }

  /** `s.split(sep)`: the pieces between separators, in order; an empty
      string gives one empty piece. */
  function Split(s: string, sep: char): (parts: seq<string>)
    ensures |parts| >= 1
    ensures forall i :: 0 <= i < |parts| ==> sep !in parts[i]
  {
    if s == [] then [""]
    else
      var rest := Split(s[1..], sep);
      if s[0] == sep then [""] + rest else [[s[0]] + rest[0]] + rest[1..]
  }

  /** Splitting at a separator splits each side on its own: the pieces of
      `a + [sep] + b` are those of `a` followed by those of `b`. */
  lemma {:induction false} SplitAtSeparator(a: string, b: string, sep: char)
    ensures Split(a + [sep] + b, sep) == Split(a, sep) + Split(b, sep)
  {
    if a == [] {
      assert a + [sep] + b == [sep] + b;
      assert ([sep] + b)[1..] == b;
    } else {
      var s := a + [sep] + b;
      assert s[0] == a[0] && s[1..] == a[1..] + [sep] + b;
      SplitAtSeparator(a[1..], b, sep);
      var rest := Split(a[1..], sep);
      if a[0] != sep {
        assert (rest + Split(b, sep))[0] == rest[0];
        assert (rest + Split(b, sep))[1..] == rest[1..] + Split(b, sep);
      }
    }
  }

  /** A string without the separator is a single piece. */
  lemma {:induction false} SplitWithoutSeparator(s: string, sep: char)
    requires sep !in s
    ensures Split(s, sep) == [s]
  {
    if s != [] {
      assert sep !in s[1..] by {
        forall k | 0 <= k < |s[1..]| ensures s[1..][k] != sep {
          assert s[1..][k] == s[k + 1];
        }
      }
      SplitWithoutSeparator(s[1..], sep);
      assert [s[0]] + s[1..] == s;
    }
  }

  /** Trimming leaves a trimmed string as it is. */
  lemma TrimTrimmed(s: string)
    requires Trimmed(s)
    ensures Trim(s) == s
  {
    assert TrimStart(s) == s;
    assert TrimEnd(s) == s;
  }

  /** `c.repeat(n)`. */
  function Repeat(c: char, n: nat): (r: string)
    ensures |r| == n && forall i :: 0 <= i < n ==> r[i] == c
  {
    seq(n, _ => c)
  }

  /** A run of one non-blank character is left as it is by trimming, and
      is blank only when empty. */
  lemma RepeatTrimmed(c: char, n: nat)
    requires !IsSpace(c)
    ensures Trim(Repeat(c, n)) == Repeat(c, n)
    ensures Repeat(c, n) == [] <==> n == 0
  {
    if n > 0 {
      assert Repeat(c, n)[0] == c && Repeat(c, n)[n - 1] == c;
    }
    TrimTrimmed(Repeat(c, n));
  }

  /** `String.prototype.length`: the number of UTF-16 code units, where a
      character beyond U+FFFF takes two. */
  function Utf16Length(s: string): (n: nat)
    ensures |s| <= n <= 2 * |s|
  {
    if s == [] then 0 else (if s[0] < '\U{10000}' then 1 else 2) + Utf16Length(s[1..])
  }

  /** Lengths add up over a concatenation. */
  lemma {:induction false} Utf16LengthAppend(a: string, b: string)
    ensures Utf16Length(a + b) == Utf16Length(a) + Utf16Length(b)
  {
    if a != [] {
      assert (a + b)[0] == a[0] && (a + b)[1..] == a[1..] + b;
      Utf16LengthAppend(a[1..], b);
    } else {
      assert a + b == b;
    }
  }

  /** The length counts characters when all lie in the Basic Multilingual
      Plane, and twice the characters when none does. */
  lemma {:induction false} Utf16LengthPlanes(s: string)
    ensures (forall i :: 0 <= i < |s| ==> s[i] < '\U{10000}') ==> Utf16Length(s) == |s|
    ensures (forall i :: 0 <= i < |s| ==> s[i] >= '\U{10000}') ==> Utf16Length(s) == 2 * |s|
  {
    if s != [] {
      Utf16LengthPlanes(s[1..]);
      assert forall i :: 0 <= i < |s[1..]| ==> s[1..][i] == s[i + 1];
    }
  }

  /** Trimming never lengthens a string. */
  lemma TrimShortens(s: string)
    ensures Utf16Length(Trim(s)) <= Utf16Length(s)
  {
    SuffixShorter(s, TrimStart(s));
    PrefixShorter(TrimStart(s), TrimEnd(TrimStart(s)));
  }

  /** A suffix is no longer than the whole. */
  lemma SuffixShorter(s: string, t: string)
    requires |t| <= |s| && t == s[|s| - |t|..]
    ensures Utf16Length(t) <= Utf16Length(s)
  {
    assert s == s[..|s| - |t|] + t;
    Utf16LengthAppend(s[..|s| - |t|], t);
  }

  /** A prefix is no longer than the whole. */
  lemma PrefixShorter(s: string, t: string)
    requires |t| <= |s| && t == s[..|t|]
    ensures Utf16Length(t) <= Utf16Length(s)
  {
    assert s == t + s[|t|..];
    Utf16LengthAppend(t, s[|t|..]);
  }

  /** Decimal digits of a count, as template literals render a number. */
  function NatToString(n: nat): (s: string)
    ensures |s| >= 1
    ensures forall i :: 0 <= i < |s| ==> '0' <= s[i] <= '9'
  {
    var d := [(('0' as int) + n % 10) as char];
    if n < 10 then d else NatToString(n / 10) + d
  }
}
