/** Strings as the daemon uses them: byte strings compared lexicographically, decimal
    rendering of counters and ports, and whitespace tokenising as done by `std::istream >>`. */
module Text {

  /** std::string's operator<. */
  predicate Less(a: string, b: string) {
    b != [] && (a == [] || a[0] < b[0] || (a[0] == b[0] && Less(a[1..], b[1..])))
  }

  /** The strings agree up to k, and there a ends first or has the smaller character. */
  predicate SmallerAt(a: string, b: string, k: nat) {
    && k <= |a| && k <= |b| && a[..k] == b[..k]
    && (k == |a| < |b| || (k < |a| && k < |b| && a[k] < b[k]))
  }

  /** Lexicographic order: smaller at the first difference, or a proper prefix. */
  lemma {:induction false} LessExactly(a: string, b: string)
    ensures Less(a, b) <==> exists k :: SmallerAt(a, b, k)
  {
    if Less(a, b) {
      var k := FirstDifference(a, b);
    }
    if k :| SmallerAt(a, b, k) {
      SmallerIsLess(a, b, k);
    }
  }

  lemma {:induction false} FirstDifference(a: string, b: string) returns (k: nat)
    requires Less(a, b)
    ensures SmallerAt(a, b, k)
  {
    if a == [] || a[0] != b[0] {
      k := 0;
      assert SmallerAt(a, b, 0);
    } else {
      k := FirstDifference(a[1..], b[1..]);
      k := k + 1;
      assert a[..k] == [a[0]] + a[1..][..k - 1] && b[..k] == [b[0]] + b[1..][..k - 1];
    }
  }

  lemma {:induction false} SmallerIsLess(a: string, b: string, k: nat)
    requires SmallerAt(a, b, k)
    ensures Less(a, b)
    decreases k
  {
    if k > 0 {
      assert a[0] == a[..k][0] == b[..k][0] == b[0];
      assert a[1..][..k - 1] == a[..k][1..] && b[1..][..k - 1] == b[..k][1..];
      SmallerIsLess(a[1..], b[1..], k - 1);
    }
  }

  lemma {:induction false} LessTotal(a: string, b: string)
    ensures Less(a, b) || a == b || Less(b, a)
    ensures !(Less(a, b) && Less(b, a))
    ensures !Less(a, a)
  {
    if a != [] {
      LessTotal(a[1..], a[1..]);
      if b != [] {
        LessTotal(a[1..], b[1..]);
        if a[0] == b[0] && a[1..] == b[1..] {
          assert a == [a[0]] + a[1..] == b;
        }
      }
    }
  }

  lemma {:induction false} LessTransitive(a: string, b: string, c: string)
    requires Less(a, b) && Less(b, c)
    ensures Less(a, c)
  {
    if a != [] && b[0] == a[0] && c[0] == b[0] {
      LessTransitive(a[1..], b[1..], c[1..]);
    }
  }

  /** std::to_string on a counter that is never negative. */
  function Decimal(n: nat): string {
    if n < 10 then [Digit(n)] else Decimal(n / 10) + [Digit(n % 10)]
  }

  function Digit(d: nat): char
    requires d < 10
  {
    ('0' as int + d) as char
  }

  /** Reads a numeral back; the partner of Decimal. */
  function Value(s: string): int {
    if s == [] then 0 else 10 * Value(s[..|s| - 1]) + (s[|s| - 1] as int - '0' as int)
  }

  lemma {:induction false} DecimalReadsBack(n: nat)
    ensures Value(Decimal(n)) == n
    ensures forall c :: c in Decimal(n) ==> '0' <= c <= '9'
  {
    if n >= 10 {
      DecimalReadsBack(n / 10);
      var s := Decimal(n);
      assert s[..|s| - 1] == Decimal(n / 10);
    } else {
      assert Decimal(n)[..0] == [];
    }
  }

  /** No zeros in front: a numeral of more than one digit starts with another digit. */
  lemma {:induction false} DecimalIsShort(n: nat)
    ensures Decimal(n) != [] && (Decimal(n)[0] == '0' <==> n == 0)
    ensures |Decimal(n)| == 1 <==> n < 10
  {
    if n >= 10 {
      DecimalIsShort(n / 10);
      assert Decimal(n)[0] == Decimal(n / 10)[0];
    }
  }

  /** The digits are the usual ones, and a numeral grows at its end. */
  lemma DecimalDigits(n: nat, d: nat)
    requires d < 10
    ensures Decimal(d) == ["0123456789"[d]]
    ensures n > 0 ==> Decimal(10 * n + d) == Decimal(n) + Decimal(d)
  {
  }

  /** isspace in the "C" locale: space, \t, \n, \v, \f, \r. */
  predicate IsSpace(c: char) {
    c == ' ' || 9 <= c as int <= 13
  }

  /** Length of the leading run of characters that are not whitespace. */
  function TokenEnd(s: string): (k: nat)
    ensures k <= |s|
    ensures forall i :: 0 <= i < k ==> !IsSpace(s[i])
    ensures k < |s| ==> IsSpace(s[k])
  {
    if s == [] || IsSpace(s[0]) then 0 else 1 + TokenEnd(s[1..])
  }

  /** The tokens that repeated `stream >> token` extracts. */
  function Words(s: string): seq<string>
    decreases |s|
  {
    if s == [] then []
    else if IsSpace(s[0]) then Words(s[1..])
    else [s[..TokenEnd(s)]] + Words(s[TokenEnd(s)..])
  }

  predicate IsToken(w: string) {
    w != [] && forall c :: c in w ==> !IsSpace(c)
  }

  /** Exactly these six characters separate tokens. */
  lemma SpacesAre(c: char)
    ensures IsSpace(c) <==> c in {' ', '\t', '\n', 11 as char, 12 as char, '\r'}
  {
  }

  /** A token by itself is one word, with nothing behind it. */
  lemma WordsOfToken(w: string)
    requires IsToken(w)
    ensures Words(w) == [w]
  {
    TokenEndIs(w, |w|);
    assert w[0] in w;
    assert w[..|w|] == w && w[|w|..] == [];
  }

  /** A separator separates, wherever it stands: the words of the text are those in front of it and
      those behind it.  So leading, trailing and repeated separators yield nothing. */
  lemma {:induction false} WordsOfConcat(a: string, sep: char, b: string)
    requires IsSpace(sep)
    ensures Words(a + [sep] + b) == Words(a) + Words(b)
    decreases |a|
  {
    var s := a + [sep] + b;
    if a == [] {
      assert s[1..] == b;
    } else if IsSpace(a[0]) {
      assert s[1..] == a[1..] + [sep] + b;
      WordsOfConcat(a[1..], sep, b);
    } else {
      TokenEndStays(a, sep, b);
      var k := TokenEnd(a);
      assert s[..k] == a[..k] && s[k..] == a[k..] + [sep] + b;
      WordsOfConcat(a[k..], sep, b);
    }
  }

  lemma TokenEndStays(a: string, sep: char, b: string)
    requires IsSpace(sep)
    ensures TokenEnd(a + [sep] + b) == TokenEnd(a)
  {
    var s := a + [sep] + b;
    assert forall i :: 0 <= i < |a| ==> s[i] == a[i];
    assert s[|a|] == sep;
    TokenEndIs(s, TokenEnd(a));
  }

  lemma {:induction false} TokenEndIs(s: string, k: nat)
    requires k <= |s| && (forall i :: 0 <= i < k ==> !IsSpace(s[i])) && (k < |s| ==> IsSpace(s[k]))
    ensures TokenEnd(s) == k
    decreases k
  {
    if k > 0 {
      TokenEndIs(s[1..], k - 1);
    }
  }

  /** Tokens written one after the other, each followed by one separator. */
  function Spaced(ws: seq<string>, sep: char): string {
    if ws == [] then [] else ws[0] + [sep] + Spaced(ws[1..], sep)
  }

  /** Tokenising undoes writing: whatever whitespace character separates them, the tokens
      come back unchanged, in order. */
  lemma {:induction false} WordsReadBack(ws: seq<string>, sep: char)
    requires IsSpace(sep)
    requires forall w :: w in ws ==> IsToken(w)
    ensures Words(Spaced(ws, sep)) == ws
  {
    if ws != [] {
      assert ws[0] in ws;
      WordsOfToken(ws[0]);
      WordsOfConcat(ws[0], sep, Spaced(ws[1..], sep));
      WordsReadBack(ws[1..], sep);
    }
  }

  /** Every token is nonempty and free of whitespace. */
  lemma {:induction false} WordsAreTokens(s: string)
    ensures forall w :: w in Words(s) ==> IsToken(w)
    decreases |s|
  {
    if s != [] {
      if IsSpace(s[0]) {
        WordsAreTokens(s[1..]);
      } else {
        WordsAreTokens(s[TokenEnd(s)..]);
      }
    }
  }
}
