/** String helpers the request pipeline of myserver.cc relies on: the C locale's
  * toupper, the C-string view of a std::string, strToUpper, the decimal
  * rendering of an int by a stringstream, and strtok. A char stands for one
  * C++ char (one octet on the wire). */
module Text {

  datatype Option<T> = None | Some(value: T)

  /** Concatenation is associative. */
  lemma ConcatAssoc<T>(a: seq<T>, b: seq<T>, c: seq<T>)
    ensures a + b + c == a + (b + c)
  {
  }

  /** The head and tail of a concatenation with a non-empty front. */
  lemma ConsTail<T>(a: seq<T>, b: seq<T>)
    requires a != []
    ensures a + b != [] && (a + b)[0] == a[0] && (a + b)[1..] == a[1..] + b
  {
  }

  /** Two sequences that agree up to n agree on every slice below n. */
  lemma SharedPrefixSlice<T>(a: seq<T>, b: seq<T>, n: nat, i: nat, j: nat)
    requires n <= |a| && n <= |b| && a[..n] == b[..n] && i <= j <= n
    ensures a[i..j] == b[i..j]
  {
    forall k | 0 <= k < j - i
      ensures a[i..j][k] == b[i..j][k]
    {
      assert a[i + k] == a[..n][i + k];
    }
  }

  /** toupper in the C locale: only 'a'..'z' change. */
  function ToUpperChar(c: char): char
  {
    if 'a' <= c <= 'z' then (c as int - 32) as char else c
  }

  predicate IsLower(c: char) { 'a' <= c <= 'z' }

  /** Every character passed through toupper. */
  function Upper(s: string): (r: string)
    ensures |r| == |s|
    ensures forall i :: 0 <= i < |s| ==> r[i] == ToUpperChar(s[i])
  {
    seq(|s|, i requires 0 <= i < |s| => ToUpperChar(s[i]))
  }

  /** Upper-casing twice is upper-casing once, and leaves no lower-case letter. */
  lemma UpperIdempotent(s: string)
    ensures Upper(Upper(s)) == Upper(s)
    ensures forall i :: 0 <= i < |s| ==> !IsLower(Upper(s)[i])
  {
  }

  /** Upper-casing commutes with dropping a prefix. */
  lemma UpperDrop(s: string, i: nat)
    requires i <= |s|
    ensures Upper(s)[i..] == Upper(s[i..])
  {
  }

  /** A string without lower-case letters is its own upper case. */
  lemma UpperFixes(s: string)
    requires forall i :: 0 <= i < |s| ==> !IsLower(s[i])
    ensures Upper(s) == s
  {
  }

  /** What a C function sees of a std::string: everything before the first NUL. */
  function CStr(s: string): (r: string)
    ensures r <= s
    ensures '\0' !in r
    ensures |r| < |s| ==> s[|r|] == '\0'
  {
    if s == [] || s[0] == '\0' then [] else [s[0]] + CStr(s[1..])
  }

  /** A prefix that ends at a NUL (or at the end) and holds no NUL is the C string. */
  lemma {:induction false} CStrIsPrefixBeforeNul(s: string, n: nat)
    requires n <= |s|
    requires forall k :: 0 <= k < n ==> s[k] != '\0'
    requires n == |s| || s[n] == '\0'
    ensures CStr(s) == s[..n]
  {
    if n > 0 {
      CStrIsPrefixBeforeNul(s[1..], n - 1);
      assert s[..n] == [s[0]] + s[1..][..n - 1];
    }
  }

  /** A string without NUL is its own C string. */
  lemma CStrOfNulFree(s: string)
    requires '\0' !in s
    ensures CStr(s) == s
  {
    CStrIsPrefixBeforeNul(s, |s|);
  }

  /** A NUL-free front is kept whole by CStr. */
  lemma {:induction false} CStrAppend(a: string, b: string)
    requires '\0' !in a
    ensures CStr(a + b) == a + CStr(b)
  {
    if a == [] {
      assert a + b == b;
    } else {
      CStrAppend(a[1..], b);
      ConsTail(a, b);
      ConcatAssoc([a[0]], a[1..], CStr(b));
      assert [a[0]] + a[1..] == a;
    }
  }

  /** toupper creates no NUL. */
  lemma UpperNulFree(s: string)
    requires '\0' !in s
    ensures '\0' !in Upper(s)
  {
  }

  /** toupper maps NUL to NUL and nothing else to NUL, so it commutes with CStr. */
  lemma {:induction false} UpperCStr(s: string)
    ensures Upper(CStr(s)) == CStr(Upper(s))
  {
    if s != [] && s[0] != '\0' {
      UpperCStr(s[1..]);
      UpperDrop(s, 1);
    }
  }

  /** strToUpper (myserver.cc:597-604): toupper each char of a copy in place
    * through its C-string buffer, then build a std::string from that buffer,
    * which reads it up to the first NUL. */
  method StrToUpper(given: string) returns (r: string)
    ensures r == Upper(CStr(given))
  {
    var cstr := new char[|given|](i requires 0 <= i < |given| => given[i]);
    var p := 0;
    while p < cstr.Length
      invariant 0 <= p <= cstr.Length == |given|
      invariant forall k :: 0 <= k < p ==> cstr[k] == ToUpperChar(given[k])
      invariant forall k :: p <= k < cstr.Length ==> cstr[k] == given[k]
    {
      cstr[p] := ToUpperChar(cstr[p]);
      p := p + 1;
    }
    assert cstr[..] == Upper(given);
    r := CStr(cstr[..]);
    UpperCStr(given);
  }

  /** The digit character for 0..9. */
  function DigitChar(d: nat): char
    requires d < 10
  {
    ('0' as int + d) as char
  }

  predicate IsDigit(c: char) { '0' <= c <= '9' }

  predicate AllDigits(s: string)
  {
    forall i :: 0 <= i < |s| ==> IsDigit(s[i])
  }

  /** Decimal digits of a natural number, most significant first, no leading zero. */
  function Natural(n: nat): (r: string)
    ensures r != [] && AllDigits(r)
    ensures r[0] == '0' ==> n == 0
  {
    if n < 10 then [DigitChar(n)] else Natural(n / 10) + [DigitChar(n % 10)]
  }

  /** What `lenstr << n` writes for an int n. */
  function Decimal(n: int): (r: string)
    ensures r != []
  {
    if n < 0 then "-" + Natural(-n) else Natural(n)
  }

  /** The value of a string of decimal digits. */
  function DigitsValue(s: string): nat
    requires AllDigits(s)
  {
    if s == [] then 0 else 10 * DigitsValue(s[..|s| - 1]) + (s[|s| - 1] as int - '0' as int)
  }

  /** Reads back an optionally signed decimal number; the partner of Decimal. */
  function ParseDecimal(s: string): Option<int>
  {
    if |s| > 1 && s[0] == '-' && AllDigits(s[1..]) then Some(0 - DigitsValue(s[1..]))
    else if s != [] && AllDigits(s) then Some(DigitsValue(s))
    else None
  }

  lemma {:induction false} NaturalValue(n: nat)
    ensures DigitsValue(Natural(n)) == n
  {
    if n >= 10 {
      NaturalValue(n / 10);
      var s := Natural(n);
      assert s[..|s| - 1] == Natural(n / 10);
    }
  }

  /** Reading back what Decimal writes gives the number again. */
  lemma DecimalRoundTrip(n: int)
    ensures ParseDecimal(Decimal(n)) == Some(n)
  {
    if n < 0 {
      NaturalValue(-n);
      assert Decimal(n)[1..] == Natural(-n);
    } else {
      NaturalValue(n);
    }
  }

  /** Index of the first character at or after i that is not in delims (or |s|). */
  function SkipDelims(s: string, i: nat, delims: set<char>): (j: nat)
    requires i <= |s|
    ensures i <= j <= |s|
    ensures forall k :: i <= k < j ==> s[k] in delims
    ensures j < |s| ==> s[j] !in delims
    decreases |s| - i
  {
    if i == |s| || s[i] !in delims then i else SkipDelims(s, i + 1, delims)
  }

  /** Index of the first character at or after i that is in delims (or |s|). */
  function TokenEnd(s: string, i: nat, delims: set<char>): (j: nat)
    requires i <= |s|
    ensures i <= j <= |s|
    ensures forall k :: i <= k < j ==> s[k] !in delims
    ensures j < |s| ==> s[j] in delims
    decreases |s| - i
  {
    if i == |s| || s[i] in delims then i else TokenEnd(s, i + 1, delims)
  }

  /** SkipDelims stops at the first non-delimiter. */
  lemma {:induction false} SkipDelimsAt(s: string, i: nat, delims: set<char>, j: nat)
    requires i <= j <= |s|
    requires forall k :: i <= k < j ==> s[k] in delims
    requires j < |s| ==> s[j] !in delims
    ensures SkipDelims(s, i, delims) == j
    decreases j - i
  {
    if i < j {
      SkipDelimsAt(s, i + 1, delims, j);
    }
  }

  /** TokenEnd stops at the first delimiter. */
  lemma {:induction false} TokenEndAt(s: string, i: nat, delims: set<char>, j: nat)
    requires i <= j <= |s|
    requires forall k :: i <= k < j ==> s[k] !in delims
    requires j < |s| ==> s[j] in delims
    ensures TokenEnd(s, i, delims) == j
    decreases j - i
  {
    if i < j {
      TokenEndAt(s, i + 1, delims, j);
    }
  }

  /** strtok continued at index `from` of a C string: skip delimiters, take the
    * longest run of non-delimiters, and resume after the delimiter that ended it
    * (strtok overwrites that delimiter with a NUL). None stands for NULL. */
  function StrTok(s: string, from: nat, delims: set<char>): (r: Option<(string, nat)>)
    requires from <= |s|
    ensures r.None? <==> forall k :: from <= k < |s| ==> s[k] in delims
    ensures r.Some? ==> r.value.0 != [] && from < r.value.1 <= |s|
    ensures r.Some? ==> forall k :: 0 <= k < |r.value.0| ==> r.value.0[k] !in delims
  {
    var a := SkipDelims(s, from, delims);
    if a == |s| then None
    else
      var b := TokenEnd(s, a, delims);
      Some((s[a..b], if b == |s| then b else b + 1))
  }

  /** strtok from `from` returns the token [a, b) when only delimiters come
    * before it and a delimiter or the end comes after it. */
  lemma StrTokAt(s: string, from: nat, delims: set<char>, a: nat, b: nat)
    requires from <= a < b <= |s|
    requires forall k :: from <= k < a ==> s[k] in delims
    requires forall k :: a <= k < b ==> s[k] !in delims
    requires b < |s| ==> s[b] in delims
    ensures StrTok(s, from, delims) == Some((s[a..b], if b == |s| then b else b + 1))
  {
    SkipDelimsAt(s, from, delims, a);
    TokenEndAt(s, a, delims, b);
  }
}
