/**
 * The arguments a command receives. `ArgumentList` is what `invoke` passes
 * to the callback. The key=value dictionary below is TEST-DERIVED: the
 * dispatcher's own code builds no dictionary. The test "Should be able to
 * parse argument values" fixes lower-case `true`/`false`, the integer `12`,
 * plain text (also with a further `=`), bare flags and that the last write
 * wins; reading booleans in any letter case and integers only from canonical
 * numerals (so `007`, `-0` and `+5` stay text) are this model's choices.
 */
module Arguments {
  import opened Wrappers
  import opened Text

  /** `argv.slice(2).slice(1)`: the tokens after the program, script and command name. */
  function ArgumentList(argv: seq<string>): (r: seq<string>)
    ensures |r| == if |argv| <= 3 then 0 else |argv| - 3
    ensures forall i :: 0 <= i < |r| ==> r[i] == argv[i + 3]
  {
    if |argv| <= 3 then [] else argv[3..]
  }

  // ---- Decimal integers ----

  predicate IsDigit(c: char) {
    '0' <= c <= '9'
  }

  predicate IsDigits(s: string) {
    forall i :: 0 <= i < |s| ==> IsDigit(s[i])
  }

  function DigitChar(d: nat): (c: char)
    requires d < 10
  {
    ('0' as int + d) as char
  }

  function DigitValue(c: char): nat
    requires IsDigit(c)
  {
    c as int - '0' as int
  }

  /** The decimal digits of `n`, without leading zeros. */
  function NatToString(n: nat): (r: string)
    ensures |r| >= 1 && IsDigits(r)
    ensures |r| > 1 ==> r[0] != '0'
  {
    if n < 10 then [DigitChar(n)] else NatToString(n / 10) + [DigitChar(n % 10)]
  }

  /** The value of a string of decimal digits. */
  function DigitsValue(s: string): nat
    requires IsDigits(s)
  {
    if s == [] then 0 else DigitsValue(s[..|s| - 1]) * 10 + DigitValue(s[|s| - 1])
  }

  /** JavaScript's `String(n)` for an integer `n`. */
  function IntToString(n: int): (r: string)
    ensures |r| >= 1 && (r[0] == '-' <==> n < 0)
    ensures IsNumeral(if n < 0 then r[1..] else r)
  {
    if n < 0 then "-" + NatToString(-n) else NatToString(n)
  }

  /** A numeral with no leading zero. */
  predicate IsNumeral(s: string) {
    |s| >= 1 && IsDigits(s) && (|s| > 1 ==> s[0] != '0')
  }

  /** Canonical base-10 integer numerals: digits with no leading zero,
      optionally after a single `-`, and never `-0`. */
  predicate IsCanonicalInt(s: string) {
    IsNumeral(s) || (|s| >= 2 && s[0] == '-' && IsNumeral(s[1..]) && s[1..] != "0")
  }

  function ParseInt(s: string): (r: int)
    requires IsCanonicalInt(s)
    ensures r < 0 <==> s[0] == '-'
  {
    if s[0] == '-' then DigitsPositive(s[1..]); -(DigitsValue(s[1..]) as int) else DigitsValue(s)
  }

  lemma {:induction false} NatRoundTrip(n: nat)
    ensures DigitsValue(NatToString(n)) == n
  {
    if n >= 10 {
      var s := NatToString(n);
      NatRoundTrip(n / 10);
      assert s[..|s| - 1] == NatToString(n / 10);
    }
  }

  lemma {:induction false} DigitsPositive(s: string)
    requires |s| >= 1 && IsDigits(s) && s[0] != '0'
    ensures DigitsValue(s) > 0
  {
    if |s| > 1 {
      DigitsPositive(s[..|s| - 1]);
    }
  }

  lemma {:induction false} NumeralRoundTrip(s: string)
    requires IsNumeral(s)
    ensures NatToString(DigitsValue(s)) == s
  {
    if |s| > 1 {
      var p := s[..|s| - 1];
      DigitsPositive(p);
      NumeralRoundTrip(p);
      var v := DigitsValue(s);
      assert v / 10 == DigitsValue(p) && v % 10 == DigitValue(s[|s| - 1]);
      assert s == p + [s[|s| - 1]];
    }
  }

  /** Printing an integer gives a canonical numeral that parses back to it. */
  lemma IntToStringRoundTrip(n: int)
    ensures IsCanonicalInt(IntToString(n)) && ParseInt(IntToString(n)) == n
  {
    if n < 0 {
      var s := IntToString(n);
      assert s[1..] == NatToString(-n);
      NatRoundTrip(-n);
    } else {
      NatRoundTrip(n);
    }
  }

  /** Parsing a canonical numeral and printing it gives the numeral back. */
  lemma ParseIntRoundTrip(s: string)
    requires IsCanonicalInt(s)
    ensures IntToString(ParseInt(s)) == s
  {
    if s[0] == '-' {
      NumeralRoundTrip(s[1..]);
      DigitsPositive(s[1..]);
      assert s == "-" + s[1..];
    } else {
      NumeralRoundTrip(s);
    }
  }

  // ---- Values of the argument dictionary ----

  datatype Value = Str(s: string) | Int(n: int) | Bool(b: bool)

  /** Coercion of the text after the first `=`: a boolean literal in any
      case, else an integer that round-trips through base-10 printing, else
      the text itself. */
  function Coerce(v: string): (r: Value)
    ensures r.Bool? ==> Lower(v) == if r.b then "true" else "false"
    ensures r.Int? ==> IntToString(r.n) == v
    ensures r.Str? ==> r.s == v
  {
    if Lower(v) == "true" then Bool(true)
    else if Lower(v) == "false" then Bool(false)
    else if IsCanonicalInt(v) then ParseIntRoundTrip(v); Int(ParseInt(v))
    else Str(v)
  }

  /** The three outcomes of `Coerce` and when each occurs. */
  lemma CoerceCases(v: string)
    ensures Coerce(v) == Bool(true) <==> Lower(v) == "true"
    ensures Coerce(v) == Bool(false) <==> Lower(v) == "false"
    ensures Coerce(v).Int? <==> Lower(v) != "true" && Lower(v) != "false" && exists n :: IntToString(n) == v
    ensures Coerce(v).Int? ==> IntToString(Coerce(v).n) == v
    ensures Coerce(v).Str? ==> Coerce(v).s == v
  {
    if IsCanonicalInt(v) {
      ParseIntRoundTrip(v);
    }
    if exists n :: IntToString(n) == v {
      var n :| IntToString(n) == v;
      IntToStringRoundTrip(n);
    }
  }

  /** Every printed integer is read back as that integer. */
  lemma CoerceIntToString(n: int)
    ensures Coerce(IntToString(n)) == Int(n)
  {
    var s := IntToString(n);
    IntToStringRoundTrip(n);
    assert s[0] == '-' || IsDigit(s[0]);
    assert Lower(s)[0] == s[0];
  }

  // ---- The dictionary ----

  /** The key of a token: the text before the first `=`, or the whole token. */
  function Key(token: string): (r: string)
    ensures |r| <= |token| && token[..|r|] == r && '=' !in r
    ensures |r| < |token| ==> token[|r|] == '='
    ensures |r| == |token| <==> '=' !in token
  {
    match FirstIndexOf(token, '=')
    case None => token
    case Some(i) => token[..i]
  }

  /** The value of a token: the coerced text after the first `=`, or `true`. */
  function EntryValue(token: string): (r: Value)
    ensures '=' !in token ==> r == Bool(true)
    ensures '=' in token && r == Bool(true) ==> Lower(token[|Key(token)| + 1..]) == "true"
  {
    match FirstIndexOf(token, '=')
    case None => Bool(true)
    case Some(i) => Coerce(token[i + 1..])
  }

  /** A token `k=v` whose key has no `=` splits at that first `=`: later
      `=` signs stay in the value ("foo=bar=hello" gives "bar=hello"). */
  lemma KeyValueToken(k: string, v: string)
    requires '=' !in k
    ensures Key(k + "=" + v) == k && EntryValue(k + "=" + v) == Coerce(v)
  {
    var t := k + "=" + v;
    assert t[|k|] == '=' && t[..|k|] == k && t[|k| + 1..] == v;
  }

  /** A token without `=` is a flag set to `true`. */
  lemma FlagToken(t: string)
    requires '=' !in t
    ensures Key(t) == t && EntryValue(t) == Bool(true)
  {
  }

  /** Left-to-right fold writing `value(x)` under `key(x)` for each `x` in
      turn, so that a later key overwrites an earlier one. */
  function Fold<T, K, V>(xs: seq<T>, key: T -> K, value: T -> V): (r: map<K, V>)
    ensures r.Keys == set x | x in xs :: key(x)
  {
    if xs == [] then map[]
    else
      var last := xs[|xs| - 1];
      var init := xs[..|xs| - 1];
      assert xs == init + [last];
      assert (set x | x in xs :: key(x)) == (set x | x in init :: key(x)) + {key(last)};
      Fold(init, key, value)[key(last) := value(last)]
  }

  /** The fold keeps, for each key, the value of the last element carrying it. */
  lemma {:induction false} FoldLastWins<T, K, V>(xs: seq<T>, key: T -> K, value: T -> V, j: nat)
    requires j < |xs|
    requires forall m :: j < m < |xs| ==> key(xs[m]) != key(xs[j])
    ensures key(xs[j]) in Fold(xs, key, value)
    ensures Fold(xs, key, value)[key(xs[j])] == value(xs[j])
  {
    var n := |xs| - 1;
    if j < n {
      var init := xs[..n];
      assert init[j] == xs[j];
      forall m | j < m < n
        ensures key(init[m]) != key(init[j])
      {
        assert init[m] == xs[m];
      }
      FoldLastWins(init, key, value, j);
    }
  }

  /** The argument dictionary: the fold over the tokens, keyed by `Key`. */
  function Dictionary(tokens: seq<string>): (r: map<string, Value>)
    ensures r.Keys == set t | t in tokens :: Key(t)
  {
    Fold(tokens, Key, EntryValue)
  }

  /** The test-derived `argumentDictionary`: the fold over the arguments a
      callback receives. */
  function ArgumentDictionary(argv: seq<string>): (r: map<string, Value>)
    ensures r.Keys == set t | t in ArgumentList(argv) :: Key(t)
  {
    Dictionary(ArgumentList(argv))
  }

  /** Last write wins: a key maps to the value of the last token carrying it. */
  lemma LastWriteWins(tokens: seq<string>, j: nat)
    requires j < |tokens|
    requires forall m :: j < m < |tokens| ==> Key(tokens[m]) != Key(tokens[j])
    ensures Key(tokens[j]) in Dictionary(tokens)
    ensures Dictionary(tokens)[Key(tokens[j])] == EntryValue(tokens[j])
  {
    FoldLastWins(tokens, Key, EntryValue, j);
  }
}
