/** A printer for the configuration text, and what the lookups find in what it
    prints: exactly which keys give their values back. */
module ConfigRoundTrip {
  import opened Wrappers
  import opened TextSpec
  import opened TextLayout
  import opened TextParser

  datatype Value = Number(n: int) | Str(s: string)
  datatype Entry = Entry(key: string, value: Value)

  // ------------------------------------------------------------- printing

  function DecimalNat(n: nat): (s: string)
    ensures s != "" && forall c <- s :: IsDigit(c)
  {
    (if n < 10 then "" else DecimalNat(n / 10)) + [(n % 10 + '0' as int) as char]
  }

  function Decimal(n: int): string {
    if n < 0 then "-" + DecimalNat(-n) else DecimalNat(n)
  }

  function ValueWord(v: Value): string {
    match v case Number(n) => Decimal(n) case Str(s) => "\"" + s + "\""
  }

  function EntryText(e: Entry): string {
    " " + e.key + " = " + ValueWord(e.value)
  }

  function Entries(cfg: seq<Entry>): string {
    if cfg == [] then "" else EntryText(cfg[0]) + Entries(cfg[1..])
  }

  function Print(cfg: seq<Entry>): string {
    "{" + Entries(cfg) + " }"
  }

  // A string of characters the parser takes as one word, wherever it stands.
  predicate WordLike(w: string) {
    && w != "" && (forall i :: 0 <= i < |w| ==> !Breaks(w[i]) && w[i] != '=' && w[i] != '\0')
    && !Skips(w[0]) && w[0] != '}'
    && !(|w| >= 2 && w[0] == '/' && (w[1] == '*' || w[1] == '/'))
  }

  // A key is a word; a string value has no quote in it and nothing that ends a word.
  predicate WellFormed(e: Entry) {
    && WordLike(e.key)
    && (e.value.Str? ==> forall c <- e.value.s :: c != '"' && c != '\0' && c != '=' && !Breaks(c))
  }

  // The same for every entry, with words that fit the parser's buffer.
  predicate AllWellFormed(cfg: seq<Entry>) {
    forall e <- cfg :: WellFormed(e)
  }

  predicate AllFit(cfg: seq<Entry>, size: nat) {
    size >= 2 && forall e <- cfg :: |e.key| < size && |ValueWord(e.value)| < size
  }

  predicate DistinctKeys(cfg: seq<Entry>) {
    forall i, j :: 0 <= i < j < |cfg| ==> cfg[i].key != cfg[j].key
  }

  // ------------------------------------------------------------ numbers

  lemma {:induction false} DigitsAfter(s: string, r: string, acc: nat)
    requires forall c <- s :: IsDigit(c)
    ensures Digits(s + r, acc) == Digits(r, Digits(s, acc))
  {
    if s != "" {
      assert s[0] in s && (s + r)[1..] == s[1..] + r;
      DigitsAfter(s[1..], r, 10 * acc + (s[0] as int - '0' as int));
    } else {
      assert s + r == r;
    }
  }

  lemma {:induction false} DigitsOfDecimal(n: nat)
    ensures Digits(DecimalNat(n), 0) == n
  {
    var last := [(n % 10 + '0' as int) as char];
    assert forall acc: nat :: Digits(last, acc) == 10 * acc + n % 10;
    if n >= 10 {
      DigitsOfDecimal(n / 10);
      DigitsAfter(DecimalNat(n / 10), last, 0);
    } else {
      assert DecimalNat(n) == last;
    }
  }

  /** Reading a printed number gives the number. */
  lemma AtoiOfDecimal(n: int)
    ensures Atoi(Decimal(n)) == n
  {
    var m := if n < 0 then -n else n;
    DigitsOfDecimal(m);
    assert DecimalNat(m)[0] in DecimalNat(m);
    if n < 0 {
      assert Decimal(n)[1..] == DecimalNat(m);
    }
  }

  // The white space that atoi skips, written out.
  predicate White(c: char) {
    c == ' ' || c == '\t' || c == '\n' || c == '\U{0B}' || c == '\U{0C}' || c == '\r'
  }

  function Signed(sign: string, n: int): int {
    if sign == "-" then -n else n
  }

  /** atoi skips white space, takes one sign, and stops where the digits end. */
  lemma {:induction false} AtoiReads(blanks: string, sign: string, n: nat, rest: string)
    requires (forall c <- blanks :: White(c)) && (sign == "" || sign == "+" || sign == "-")
    requires rest == "" || !('0' <= rest[0] <= '9')
    ensures Atoi(blanks + (sign + DecimalNat(n) + rest)) == Signed(sign, n)
    decreases |blanks|
  {
    hide DecimalNat;
    var s := sign + DecimalNat(n) + rest;
    if blanks != "" {
      assert blanks[0] in blanks && (blanks + s)[1..] == blanks[1..] + s;
      AtoiReads(blanks[1..], sign, n, rest);
    } else {
      assert blanks + s == s;
      SignedReads(sign, n, rest);
    }
  }

  lemma DigitsFirst(n: nat, rest: string)
    requires rest == "" || !('0' <= rest[0] <= '9')
    ensures var x := DecimalNat(n) + rest; x != "" && '0' <= x[0] <= '9' && Digits(x, 0) == n
  {
    var d := DecimalNat(n);
    hide DecimalNat;
    assert d[0] in d;
    DigitsOfDecimal(n);
    DigitsAfter(d, rest, 0);
  }

  lemma AtoiStarts(x: string)
    requires x != "" && '0' <= x[0] <= '9'
    ensures Atoi(x) == Digits(x, 0) && Atoi("-" + x) == Signed("-", Digits(x, 0)) && Atoi("+" + x) == Digits(x, 0)
  {
    hide Digits;
    assert ("-" + x)[1..] == x && ("+" + x)[1..] == x;
  }

  lemma SignedReads(sign: string, n: nat, rest: string)
    requires sign == "" || sign == "+" || sign == "-"
    requires rest == "" || !('0' <= rest[0] <= '9')
    ensures Atoi(sign + DecimalNat(n) + rest) == Signed(sign, n)
  {
    hide DecimalNat, Digits, Atoi;
    var x := DecimalNat(n) + rest;
    DigitsFirst(n, rest);
    AtoiStarts(x);
    assert sign + DecimalNat(n) + rest == sign + x;
    assert "" + x == x;
  }

  /** A word as the string functions see it ends at the first null character. */
  lemma {:induction false} CStringStops(a: string, b: string)
    requires forall i :: 0 <= i < |a| ==> a[i] != '\0'
    ensures CString(a + "\0" + b) == a && CString(a) == a
  {
    if a != "" {
      assert (a + "\0" + b)[1..] == a[1..] + "\0" + b;
      CStringStops(a[1..], b);
    }
  }

  lemma ValueIsWord(e: Entry)
    requires WellFormed(e)
    ensures WordLike(ValueWord(e.value))
  {
    var w := ValueWord(e.value);
    match e.value {
      case Number(n) =>
        var d := DecimalNat(if n < 0 then -n else n);
        forall i | 0 <= i < |w| ensures w[i] == '-' || IsDigit(w[i]) {
          if n >= 0 {
            assert w[i] in d;
          } else if i > 0 {
            assert w[i] == d[i - 1] && d[i - 1] in d;
          }
        }
      case Str(s) =>
        forall i | 0 <= i < |w| ensures !EndsWord(w[i]) && w[i] != '\0' {
          if 0 < i < |w| - 1 {
            assert w[i] == s[i - 1] && s[i - 1] in s;
          }
        }
    }
  }

  // ------------------------------------------------------- reading back

  lemma {:induction false} WordEndAt(t: string, p: nat, e: nat)
    requires p <= e < |t| && EndsWord(t[e]) && forall i :: p <= i < e ==> !EndsWord(t[i])
    ensures WordEnd(t, p) == Some(e)
    decreases e - p
  {
    if p < e {
      WordEndAt(t, p + 1, e);
    }
  }

  lemma {:induction false} QuoteEndAt(t: string, p: nat, e: nat)
    requires p <= e < |t| && t[e] == '"' && forall i :: p <= i < e ==> t[i] != '"'
    ensures QuoteEnd(t, p) == Some(e)
    decreases e - p
  {
    if p < e {
      QuoteEndAt(t, p + 1, e);
    }
  }

  // The text has w at p, and something after it that ends a word.
  predicate Stands(t: string, p: nat, w: string) {
    p + |w| < |t| && t[p..p + |w|] == w && (Breaks(t[p + |w|]) || t[p + |w|] == '=')
  }

  lemma OneWord(t: string, p: nat, w: string)
    requires Stands(t, p, w) && WordLike(w)
    ensures LexemeAt(t, p) == Start && WordFrom(t, p) == Some(p + |w|) && CString(t[p..p + |w|]) == w && w != "="
  {
    assert forall i :: 0 <= i < |w| ==> w[i] == t[p + i];
    forall i | p <= i < p + |w| ensures !EndsWord(t[i]) {
      assert t[i] == w[i - p];
    }
    assert t[p + 0] == w[0];
    assert |w| >= 2 ==> t[p + 1] == w[1];
    WordEndAt(t, p, p + |w|);
    CStringStops(w, "");
    hide CString, CommentEnd, LineEnd, WordEnd;
  }

  lemma HopGap(t: string, p: nat, size: nat)
    requires p < |t| && IsBlank(t[p])
    ensures LexTokens(t, p) == LexTokens(t, p + 1)
    ensures StringAt(t, p) == StringAt(t, p + 1)
    ensures WordsFit(t, p, size) == WordsFit(t, p + 1, size)
  {
    assert LexemeAt(t, p) == Gap(1);
    assert SkipFrom(t, p) == SkipFrom(t, p + 1);
    hide LexemeAt, SkipFrom, TokenOf;
    assert NextWord(t, p) == NextWord(t, p + 1);
  }

  lemma HopWord(t: string, p: nat, e: nat, size: nat)
    requires LexemeAt(t, p) == Start && WordFrom(t, p) == Some(e) && e - p < size
    ensures LexTokens(t, p) == Cons(TokenOf(t, p, e), LexTokens(t, e))
    ensures WordsFit(t, p, size) == WordsFit(t, e, size)
  {
    hide LexemeAt, TokenOf, WordFrom;
    assert SkipFrom(t, p) == At(p);
    hide SkipFrom;
    assert NextWord(t, p) == Word(p, e);
  }

  function StrOf(v: Value): Quoted {
    match v case Number(_) => NoString case Str(s) => Text(s)
  }

  // The first character of the value tells a string from a number.
  lemma FirstOfValue(v: Value)
    ensures ValueWord(v) != "" && (ValueWord(v)[0] == '"' <==> v.Str?)
  {
    if v.Number? && v.n >= 0 {
      assert ValueWord(v)[0] in DecimalNat(v.n);
    }
  }

  lemma StringOfValue(t: string, p: nat, e: Entry)
    requires WellFormed(e) && Stands(t, p, ValueWord(e.value))
    ensures StringAt(t, p) == StrOf(e.value)
  {
    var w := ValueWord(e.value);
    ValueIsWord(e);
    OneWord(t, p, w);
    FirstOfValue(e.value);
    hide LexemeAt, WordFrom, CString, WordLike, WellFormed, ValueWord, QuoteEnd;
    assert SkipFrom(t, p) == At(p);
    assert t[p] == t[p..p + |w|][0] == w[0];
    hide SkipFrom;
    if e.value.Str? {
      QuoteOfString(t, p, e.value.s);
    }
  }

  lemma QuoteOfString(t: string, p: nat, s: string)
    requires '"' !in s && Stands(t, p, ValueWord(Str(s)))
    ensures var c := p + |s| + 1;
            t[p] == '"' && QuoteEnd(t, p + 1) == Some(c) && c < |t| && t[p + 1..c] == s
  {
    hide *;
    QuotesStand(t, p, s);
    var c := p + |s| + 1;
    forall i | p + 1 <= i < c ensures t[i] != '"' {
      assert t[i] == t[p + 1..c][i - p - 1];
    }
    QuoteEndAt(t, p + 1, c);
  }

  lemma QuotesStand(t: string, p: nat, s: string)
    requires Stands(t, p, ValueWord(Str(s)))
    ensures var c := p + |s| + 1;
            c < |t| && t[p] == '"' && t[c] == '"' && t[p + 1..c] == s
  {
    var w := ValueWord(Str(s));
    assert w == ['"'] + s + ['"'];
    hide ValueWord;
    SliceAt(t, p, w, 0, 1);
    SliceAt(t, p, w, 1, |s| + 1);
    SliceAt(t, p, w, |s| + 1, |s| + 2);
    assert w[0..1] == ['"'] && w[1..|s| + 1] == s && w[|s| + 1..|s| + 2] == ['"'];
    assert t[p] == t[p..p + 1][0] && t[p + |s| + 1] == t[p + |s| + 1..p + |s| + 2][0];
  }

  lemma SliceAt(t: string, p: nat, w: string, i: nat, j: nat)
    requires p + |w| <= |t| && t[p..p + |w|] == w && i <= j <= |w|
    ensures t[p + i..p + j] == w[i..j]
  {
    forall k | 0 <= k < j - i ensures t[p + i..p + j][k] == w[i..j][k] {
      assert t[p..p + |w|][i + k] == t[p + (i + k)];
    }
  }

  // The three words of an entry.
  function WordsOfEntry(e: Entry): seq<Token> {
    [Token(e.key, NoString), Token("=", StrOf(e.value)), Token(ValueWord(e.value), NoString)]
  }

  function WordsOfAll(cfg: seq<Entry>): seq<Token> {
    if cfg == [] then [] else WordsOfEntry(cfg[0]) + WordsOfAll(cfg[1..])
  }

  // Where the parts of an entry stand.
  lemma EntryParts(t: string, p: nat, e: Entry)
    requires Stands(t, p, EntryText(e))
    ensures var k := p + 1 + |e.key|;
            && t[p] == ' ' && Stands(t, p + 1, e.key)
            && t[k + 1] == '=' && t[k + 2] == ' '
            && Stands(t, k + 3, ValueWord(e.value)) && k + 3 + |ValueWord(e.value)| == p + |EntryText(e)|
  {
    hide ValueWord;
    var x := EntryText(e);
    var v := ValueWord(e.value);
    var k := 1 + |e.key|;
    assert forall i :: 0 <= i < |x| ==> x[i] == t[p + i];
    assert x[0] == ' ' && x[k] == ' ' && x[k + 1] == '=' && x[k + 2] == ' ';
    assert t[p + 1..p + k] == x[1..k] == e.key;
    assert t[p + k + 3..p + |x|] == x[k + 3..] == v;
  }

  lemma EntryRead(t: string, p: nat, e: Entry, size: nat)
    requires WellFormed(e) && Stands(t, p, EntryText(e)) && LexTokens(t, p + |EntryText(e)|).Some?
    requires |e.key| < size && |ValueWord(e.value)| < size && 1 < size
    ensures LexTokens(t, p) == Some(WordsOfEntry(e) + LexTokens(t, p + |EntryText(e)|).value)
    ensures WordsFit(t, p, size) == WordsFit(t, p + |EntryText(e)|, size)
  {
    hide WordFrom, StringAt, LexTokens, WordsFit, CString, ValueWord, WordLike, Stands;
    var v := ValueWord(e.value);
    var k := p + 1 + |e.key|;
    var n := p + |EntryText(e)|;
    EntryParts(t, p, e);
    EntryBounds(t, p, e);
    hide EntryText;
    ValueIsWord(e);
    OneWord(t, p + 1, e.key);
    OneWord(t, k + 3, v);
    StringOfValue(t, k + 3, e);
    hide LexemeAt, WellFormed;
    HopGap(t, p, size);
    HopWord(t, p + 1, k, size);
    HopGap(t, k, size);
    EqualsHere(t, k + 1, size);
    HopGap(t, k + 2, size);
    HopWord(t, k + 3, n, size);
    ThreeWords(e, LexTokens(t, n).value);
  }

  lemma ThreeWords(e: Entry, rest: seq<Token>)
    ensures var w := WordsOfEntry(e);
            Cons(w[0], Cons(w[1], Cons(w[2], Some(rest)))) == Some(w + rest)
  {
    var w := WordsOfEntry(e);
    assert [w[0]] + ([w[1]] + ([w[2]] + rest)) == w + rest;
  }

  lemma EntryBounds(t: string, p: nat, e: Entry)
    requires Stands(t, p, EntryText(e))
    ensures p + |EntryText(e)| < |t| && t[p + 1 + |e.key|] == ' '
  {
    EntryParts(t, p, e);
  }

  lemma EqualsHere(t: string, p: nat, size: nat)
    requires p < |t| && t[p] == '=' && 1 < size
    ensures LexTokens(t, p) == Cons(Token("=", StringAt(t, p + 1)), LexTokens(t, p + 1))
    ensures WordsFit(t, p, size) == WordsFit(t, p + 1, size)
  {
    HopWord(t, p, p + 1, size);
    assert t[p..p + 1] == "=";
    assert CString("=") == "=";
  }

  lemma {:induction false} EntriesRead(t: string, p: nat, cfg: seq<Entry>, size: nat)
    requires p <= |t| && t[p..] == Entries(cfg) + " }" && AllWellFormed(cfg) && AllFit(cfg, size)
    ensures LexTokens(t, p) == Some(WordsOfAll(cfg)) && WordsFit(t, p, size)
    decreases |cfg|
  {
    hide WellFormed, EntryText, WordsOfEntry, LexTokens, WordsFit, Stands, Entries;
    if cfg == [] {
      EntriesEnd(t, p, size);
    } else {
      var n := |EntryText(cfg[0])|;
      EntriesSplit(t, p, cfg, " }");
      EntriesRead(t, p + n, cfg[1..], size);
      EntryRead(t, p, cfg[0], size);
    }
  }

  lemma EntriesEnd(t: string, p: nat, size: nat)
    requires p <= |t| && t[p..] == Entries([]) + " }"
    ensures LexTokens(t, p) == Some([]) && WordsFit(t, p, size)
  {
    assert |t| == p + 2 && t[p..][0] == ' ' && t[p..][1] == '}';
    HopGap(t, p, size);
    assert LexemeAt(t, p + 1) == Close;
    assert SkipFrom(t, p + 1) == Stop(p + 1);
  }

  lemma EntriesSplit(t: string, p: nat, cfg: seq<Entry>, rest: string)
    requires p <= |t| && cfg != [] && t[p..] == Entries(cfg) + rest && rest != "" && rest[0] == ' '
    ensures var n := |EntryText(cfg[0])|;
            Stands(t, p, EntryText(cfg[0])) && p + n <= |t| && t[p + n..] == Entries(cfg[1..]) + rest
  {
    EntriesBegin(cfg[1..], rest);
    hide EntryText;
    assert Entries(cfg) == EntryText(cfg[0]) + Entries(cfg[1..]);
    SplitText(t, p, EntryText(cfg[0]), Entries(cfg[1..]), rest);
  }

  lemma SplitText(t: string, p: nat, a: string, b: string, c: string)
    requires p <= |t| && t[p..] == (a + b) + c && b + c != "" && Breaks((b + c)[0])
    ensures Stands(t, p, a) && p + |a| <= |t| && t[p + |a|..] == b + c
  {
    var n := |a|;
    assert t[p..][n..] == b + c && t[p..][..n] == a;
    assert t[p..][n] == t[p + n];
  }

  lemma EntriesBegin(cfg: seq<Entry>, rest: string)
    requires rest != "" && rest[0] == ' '
    ensures var x := Entries(cfg) + rest; |x| > 0 && x[0] == ' '
  {
  }

  /** The parser reads what was printed: for every configuration of well-formed
      entries its words are key, '=' and value, in order, and every scan stays in
      the text. */
  lemma PrintedReads(cfg: seq<Entry>, size: nat)
    requires AllWellFormed(cfg) && AllFit(cfg, size)
    ensures Tokens(Print(cfg), 0) == Some(WordsOfAll(cfg))
    ensures Safe(Print(cfg)) && WordsFit(Print(cfg), 0, size)
  {
    hide LexTokens, Tokens, WordsFit;
    var t := Print(cfg);
    assert t[1..] == Entries(cfg) + " }";
    EntriesRead(t, 1, cfg, size);
    HopGap(t, 0, size);
    LexTokensIs(t, 0);
    forall x | x in WordsOfAll(cfg) ensures !x.str.Unclosed? {
      StringsClosed(cfg, x);
    }
  }

  lemma {:induction false} StringsClosed(cfg: seq<Entry>, x: Token)
    requires x in WordsOfAll(cfg)
    ensures !x.str.Unclosed?
  {
    if x !in WordsOfEntry(cfg[0]) {
      StringsClosed(cfg[1..], x);
    }
  }

  // -------------------------------------------------------------- lookup

  lemma {:induction false} WordsAt(cfg: seq<Entry>, i: nat)
    requires i < |cfg|
    ensures |WordsOfAll(cfg)| == 3 * |cfg|
    ensures WordsOfAll(cfg)[3 * i..3 * i + 3] == WordsOfEntry(cfg[i])
  {
    var ts := WordsOfAll(cfg[1..]);
    if |cfg| > 1 {
      WordsAt(cfg[1..], if i == 0 then 0 else i - 1);
    }
    assert WordsOfAll(cfg) == WordsOfEntry(cfg[0]) + ts;
    if i > 0 {
      assert WordsOfAll(cfg)[3 * i..3 * i + 3] == ts[3 * (i - 1)..3 * (i - 1) + 3];
    }
  }

  lemma WordsAtEach(cfg: seq<Entry>, i: nat)
    requires i < |cfg|
    ensures var ts := WordsOfAll(cfg);
            && |ts| == 3 * |cfg| && ts[3 * i] == Token(cfg[i].key, NoString)
            && ts[3 * i + 1] == Token("=", StrOf(cfg[i].value))
            && ts[3 * i + 2] == Token(ValueWord(cfg[i].value), NoString)
  {
    WordsAt(cfg, i);
    var x := WordsOfAll(cfg)[3 * i..3 * i + 3];
    assert x[0] == WordsOfAll(cfg)[3 * i] && x[1] == WordsOfAll(cfg)[3 * i + 1] && x[2] == WordsOfAll(cfg)[3 * i + 2];
  }

  lemma NotEquals(e: Entry)
    requires WellFormed(e)
    ensures e.key != "=" && ValueWord(e.value) != "="
  {
    ValueIsWord(e);
    assert EndsWord("="[0]);
  }

  // A lookup finds something exactly when the first occurrence of the key is as
  // the key of an entry.
  lemma FoundAtKey(cfg: seq<Entry>, key: string, i: nat)
    requires AllWellFormed(cfg) && i == IndexOf(WordsOfAll(cfg), key)
    ensures |WordsOfAll(cfg)| == 3 * |cfg|
    ensures i < 3 * |cfg| && i % 3 == 0 ==>
              && key == cfg[i / 3].key
              && LookupWord(WordsOfAll(cfg), key) == Some(ValueWord(cfg[i / 3].value))
              && QuotedOf(WordsOfAll(cfg), key) == StrOf(cfg[i / 3].value)
    ensures i >= 3 * |cfg| || i % 3 != 0 ==>
              LookupWord(WordsOfAll(cfg), key) == None && QuotedOf(WordsOfAll(cfg), key) == NoString
  {
    hide IndexOf, WellFormed, WordsOfAll, ValueWord;
    if cfg == [] {
      assert WordsOfAll(cfg) == [] by { EmptyWords(); }
    } else {
      var e := if i / 3 < |cfg| then i / 3 else |cfg| - 1;
      WordsAtEach(cfg, e);
      NotEquals(cfg[e]);
      if e + 1 < |cfg| {
        WordsAtEach(cfg, e + 1);
        NotEquals(cfg[e + 1]);
      }
    }
  }

  lemma EmptyWords()
    ensures WordsOfAll([]) == []
  {
  }

  // No entry before i has the key of i as its value word.
  predicate Unshadowed(cfg: seq<Entry>, i: nat)
    requires i < |cfg|
  {
    forall j :: 0 <= j < i ==> ValueWord(cfg[j].value) != cfg[i].key
  }

  lemma FirstAt(cfg: seq<Entry>, i: nat)
    requires AllWellFormed(cfg) && DistinctKeys(cfg) && i < |cfg|
    ensures |WordsOfAll(cfg)| == 3 * |cfg|
    ensures Unshadowed(cfg, i) ==> IndexOf(WordsOfAll(cfg), cfg[i].key) == 3 * i
    ensures !Unshadowed(cfg, i) ==> IndexOf(WordsOfAll(cfg), cfg[i].key) % 3 == 2
  {
    hide WellFormed, WordsOfAll, ValueWord, IndexOf;
    var ts, key := WordsOfAll(cfg), cfg[i].key;
    var f := IndexOf(ts, key);
    WordsAtEach(cfg, i);
    assert f <= 3 * i && ts[f].word == key;
    WordsAtEach(cfg, f / 3);
    NotEquals(cfg[i]);
    if !Unshadowed(cfg, i) {
      var j :| 0 <= j < i && ValueWord(cfg[j].value) == key;
      WordsAtEach(cfg, j);
      assert f < 3 * i;
    }
  }

  // The lookup that fits the entry answers with its value.
  predicate GivesBack(t: string, e: Entry) {
    match e.value
    case Number(n) => ValueAnswer(t, e.key) == There(n)
    case Str(s) => StringAnswer(t, e.key) == There(s)
  }

  // What the other lookup answers.
  predicate OtherwisePlain(t: string, e: Entry) {
    match e.value
    case Number(_) => StringAnswer(t, e.key) == NotThere
    case Str(_) => ValueAnswer(t, e.key) == There(0)
  }

  lemma AtoiOfValue(v: Value)
    ensures Atoi(ValueWord(v)) == if v.Number? then v.n else 0
  {
    if v.Number? {
      AtoiOfDecimal(v.n);
    }
  }

  // What both lookups find, from where the key first occurs among the words.
  lemma Answers(cfg: seq<Entry>, key: string, i: nat)
    requires AllWellFormed(cfg) && AllFit(cfg, WORD_SIZE) && i == IndexOf(WordsOfAll(cfg), key)
    ensures i < 3 * |cfg| && i % 3 == 0 ==>
              && ValueAnswer(Print(cfg), key) == There(match cfg[i / 3].value case Number(n) => n case Str(_) => 0)
              && StringAnswer(Print(cfg), key) ==
                 (match cfg[i / 3].value case Number(_) => NotThere case Str(s) => There(s))
    ensures i >= 3 * |cfg| || i % 3 != 0 ==>
              ValueAnswer(Print(cfg), key) == NotThere && StringAnswer(Print(cfg), key) == NotThere
  {
    PrintedReads(cfg, WORD_SIZE);
    FoundAtKey(cfg, key, i);
    LookupsSearch(Print(cfg), key);
    hide Print, Tokens, WordsFit, AllWellFormed, AllFit, WordsOfAll, LookupWord, IndexOf, Atoi, ValueWord, ValueAnswer,
      StringAnswer;
    if i < 3 * |cfg| {
      AtoiOfValue(cfg[i / 3].value);
    }
  }

  /** Round trip. Looking up the key of an entry of the printed text gives its
      value exactly when no earlier value word equals that key; then a number entry
      has no string, and a string entry reads as the number 0. */
  lemma RoundTrip(cfg: seq<Entry>, i: nat)
    requires AllWellFormed(cfg) && AllFit(cfg, WORD_SIZE) && DistinctKeys(cfg) && i < |cfg|
    ensures GivesBack(Print(cfg), cfg[i]) <==> Unshadowed(cfg, i)
    ensures Unshadowed(cfg, i) ==> OtherwisePlain(Print(cfg), cfg[i])
  {
    hide Print, AllWellFormed, AllFit, WordsOfAll, DistinctKeys, IndexOf, ValueAnswer, StringAnswer, Unshadowed;
    var f := IndexOf(WordsOfAll(cfg), cfg[i].key);
    FirstAt(cfg, i);
    Answers(cfg, cfg[i].key, f);
    if Unshadowed(cfg, i) {
      assert f / 3 == i;
    }
  }

  /** A key that no entry has is never found, not even when it is a value word,
      or "=". */
  lemma AbsentKey(cfg: seq<Entry>, key: string)
    requires AllWellFormed(cfg) && AllFit(cfg, WORD_SIZE) && forall e <- cfg :: e.key != key
    ensures ValueAnswer(Print(cfg), key) == NotThere && StringAnswer(Print(cfg), key) == NotThere
  {
    var i := IndexOf(WordsOfAll(cfg), key);
    FoundAtKey(cfg, key, i);
    hide Print, Tokens, WordsFit, AllWellFormed, AllFit, WordsOfAll, IndexOf, ValueAnswer, StringAnswer;
    Answers(cfg, key, i);
  }
}
