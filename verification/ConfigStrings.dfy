/** The round trip again, for strings with blanks, '=' and even comments in them:
    such a string reads as several words, and a key is found at its own place
    exactly when it is none of the words before that. */
module ConfigStrings {
  import opened Wrappers
  import opened TextSpec
  import opened TextLayout
  import opened TextInsertion
  import opened ConfigRoundTrip

  // The words that begin from p on and end by h, as they stand in the text.
  function WordsTo(t: string, p: nat, h: nat): seq<string>
    decreases |t| - p
  {
    if p == h || NextHead(t, p).None? then []
    else
      var e := NextHead(t, p).value;
      (if LexemeAt(t, p).Start? then [t[p..e]] else []) + WordsTo(t, e, h)
  }

  // The parser goes from p to h, and ws are the words it meets.
  predicate Walk(t: string, p: nat, h: nat, ws: seq<string>) {
    HeadAt(t, p, h) && WordsTo(t, p, h) == ws
  }

  lemma {:induction false} WalkOn(t: string, p: nat, m: nat, h: nat, ws: seq<string>, vs: seq<string>)
    requires Walk(t, p, m, ws) && Walk(t, m, h, vs)
    ensures Walk(t, p, h, ws + vs)
    decreases |t| - p
  {
    hide LexemeAt, WordFrom;
    HeadsGoOn(t, m, h);
    if p == m {
      assert ws + vs == vs;
    } else {
      var e := NextHead(t, p).value;
      HeadsGoOn(t, e, m);
      WalkOn(t, e, m, h, WordsTo(t, e, m), vs);
      assert ws + vs == (if LexemeAt(t, p).Start? then [t[p..e]] else []) + (WordsTo(t, e, m) + vs);
    }
  }

  // The same walk in a text that is the same up to there.
  lemma {:induction false} WalkPrefix(t: string, u: string, p: nat, h: nat)
    requires SamePrefix(t, u, h + 1) && HeadAt(t, p, h)
    ensures Walk(u, p, h, WordsTo(t, p, h))
    decreases |t| - p
  {
    hide LexemeAt, WordFrom;
    if p != h {
      var e := NextHead(t, p).value;
      HeadsGoOn(t, e, h);
      PrefixStep(t, u, p, h + 1);
      assert t[p..e] == u[p..e];
      WalkPrefix(t, u, e, h);
    }
  }

  // And in a text in which it begins elsewhere.
  lemma {:induction false} WalkShift(t: string, p: nat, u: string, q: nat, h: nat)
    requires Alike(t, p, u, q) && HeadAt(t, p, h)
    ensures h >= p && Walk(u, q, h - p + q, WordsTo(t, p, h))
    decreases |t| - p
  {
    hide Alike, LexemeAt, WordFrom;
    HeadsGoOn(t, p, h);
    if p != h {
      var e := NextHead(t, p).value;
      HeadsGoOn(t, e, h);
      ShiftHead(t, p, u, q);
      WalkShift(t, e, u, e - p + q, h);
    }
  }

  lemma ShiftHead(t: string, p: nat, u: string, q: nat)
    requires Alike(t, p, u, q) && NextHead(t, p).Some?
    ensures var e := NextHead(t, p).value;
            && LexemeAt(u, q) == LexemeAt(t, p) && NextHead(u, q) == Some(e - p + q)
            && Alike(t, e, u, e - p + q) && t[p..e] == u[q..e - p + q]
  {
    hide LexemeAt, WordFrom, Alike;
    ShiftLexeme(t, p, u, q);
    if LexemeAt(t, p).Start? {
      ShiftWord(t, p, u, q);
    }
    AlikeStep(t, p, u, q, NextHead(t, p).value - p);
  }

  // ---------------------------------------------------- search along a walk

  // One of the words is the key, as the string functions compare.
  predicate Hits(ws: seq<string>, key: string) {
    exists w <- ws :: CString(w) == key
  }

  predicate Fit(ws: seq<string>) {
    forall w <- ws :: |w| < WORD_SIZE
  }

  lemma FindStep(t: string, p: nat, key: string)
    requires NextHead(t, p).Some?
    ensures var e := NextHead(t, p).value;
            && (LexemeAt(t, p).Gap? ==>
                  Find(t, p, key) == Find(t, e, key) && WordAfter(t, p) == WordAfter(t, e) && StringAt(t, p) == StringAt(t, e))
            && (LexemeAt(t, p).Start? && |t[p..e]| < WORD_SIZE ==>
                  WordAfter(t, p) == There((CString(t[p..e]), e)) &&
                  Find(t, p, key) == if CString(t[p..e]) == key then There(e) else Find(t, e, key))
  {
    hide LexemeAt, WordFrom, CString;
    if LexemeAt(t, p).Gap? {
      var e := NextHead(t, p).value;
      assert SkipFrom(t, p) == SkipFrom(t, e);
      hide SkipFrom;
      assert WordAfter(t, p) == WordAfter(t, e);
    } else {
      assert SkipFrom(t, p) == At(p);
    }
  }

  /** The search passes over words that are not the key, and does not pass over
      one that is. */
  lemma {:induction false} FindAlong(t: string, p: nat, h: nat, key: string)
    requires HeadAt(t, p, h) && Fit(WordsTo(t, p, h))
    ensures !Hits(WordsTo(t, p, h), key) ==> Find(t, p, key) == Find(t, h, key)
    ensures Hits(WordsTo(t, p, h), key) ==> Find(t, p, key).There? && Find(t, p, key).value <= h
    decreases |t| - p
  {
    hide LexemeAt, WordFrom, CString, Find;
    if p != h {
      var e := NextHead(t, p).value;
      var rest := WordsTo(t, e, h);
      HeadsGoOn(t, e, h);
      FindStep(t, p, key);
      assert WordsTo(t, p, h) == (if LexemeAt(t, p).Start? then [t[p..e]] else []) + rest;
      assert forall w <- rest :: w in WordsTo(t, p, h);
      if LexemeAt(t, p).Start? {
        assert t[p..e] in WordsTo(t, p, h);
      }
      FindAlong(t, e, h, key);
    }
  }

  // ------------------------------------------------------ a printed entry

  // A value word with a blank on either side.
  function Framed(w: string): string {
    " " + w + " "
  }

  /** The words a printed value reads as: one for a number, and for a string what
      the blanks in it make of it. */
  function Pieces(v: Value): seq<string> {
    var w := ValueWord(v);
    WordsTo(Framed(w), 1, 1 + |w|)
  }

  /** The parser, reading the value as words, comes out exactly at its end: no
      comment or brace in the string leads it astray. */
  predicate InStep(v: Value) {
    var w := ValueWord(v);
    HeadAt(Framed(w), 1, 1 + |w|)
  }

  function EntryWords(e: Entry): seq<string> {
    [e.key, "="] + Pieces(e.value)
  }

  // A string has no quote in it, and every word fits the parser's buffer.
  predicate Readable(e: Entry) {
    WordLike(e.key) && InStep(e.value) && Fit(EntryWords(e)) && (e.value.Str? ==> '"' !in e.value.s)
  }

  // What keeps a walk the same up to a place where a word ends in both texts.
  lemma {:induction false} WalkToBreak(t: string, u: string, p: nat, h: nat)
    requires SamePrefix(t, u, h) && 1 <= h < |t| && h < |u| && HeadAt(t, p, h) && t[h - 1] != '/'
    requires t[h] == ' ' && !IsBlank(t[h - 1]) && EndsWord(u[h])
    ensures Walk(u, p, h, WordsTo(t, p, h))
    decreases |t| - p
  {
    hide LexemeAt, WordFrom;
    HeadsGoOn(t, p, h);
    if p != h {
      var e := NextHead(t, p).value;
      HeadsGoOn(t, e, h);
      if e < h {
        PrefixStep(t, u, p, h);
      } else {
        LastStep(t, u, p, h);
      }
      assert t[p..e] == u[p..e];
      WalkToBreak(t, u, e, h);
    }
  }

  // The last word ends there in both.
  lemma LastStep(t: string, u: string, p: nat, h: nat)
    requires SamePrefix(t, u, h) && p < h < |t| && h < |u| && NextHead(t, p) == Some(h) && t[h - 1] != '/'
    requires t[h] == ' ' && !IsBlank(t[h - 1]) && EndsWord(u[h])
    ensures LexemeAt(u, p) == LexemeAt(t, p) == Start && NextHead(u, p) == Some(h)
  {
    LastIsWord(t, p, h);
    WordEndBounds(t, p);
    hide CommentEnd, LineEnd, WordEnd;
    if t[p] != '=' {
      WordEndAt(u, p, h);
    }
  }

  lemma LastIsWord(t: string, p: nat, h: nat)
    requires p < h < |t| && NextHead(t, p) == Some(h) && t[h - 1] != '/' && t[h] == ' ' && !IsBlank(t[h - 1])
    ensures LexemeAt(t, p) == Start && WordFrom(t, p) == Some(h)
  {
    if p >= 1 {
      CommentEndBounds(t, p);
    }
    LineEndBounds(t, p);
    hide CommentEnd, LineEnd, WordEnd;
  }

  // A framed word reads the same wherever it stands.
  lemma ValueWalk(t: string, p: nat, v: Value)
    requires 1 <= p <= |t| && Stands(t, p, ValueWord(v)) && t[p - 1] != '*' && InStep(v)
    ensures Walk(t, p, p + |ValueWord(v)|, Pieces(v))
  {
    hide *;
    var w := ValueWord(v);
    var u := " " + t[p..];
    ValueEnds(v);
    FramedThere(t, p, w);
    InStepIs(v);
    WalkToBreak(Framed(w), u, 1, 1 + |w|);
    WalkIs(u, 1, 1 + |w|, WordsTo(Framed(w), 1, 1 + |w|));
    WalkShift(u, 1, t, p, 1 + |w|);
  }

  lemma InStepIs(v: Value)
    requires InStep(v)
    ensures HeadAt(Framed(ValueWord(v)), 1, 1 + |ValueWord(v)|)
    ensures Pieces(v) == WordsTo(Framed(ValueWord(v)), 1, 1 + |ValueWord(v)|)
  {
    hide HeadAt, WordsTo, Framed, ValueWord;
  }

  lemma WalkIs(t: string, p: nat, h: nat, ws: seq<string>)
    requires Walk(t, p, h, ws)
    ensures HeadAt(t, p, h) && WordsTo(t, p, h) == ws
  {
    hide HeadAt, WordsTo;
  }

  // A value ends in a digit or a quote.
  lemma ValueEnds(v: Value)
    ensures var w := ValueWord(v); w != "" && w[|w| - 1] != '/' && !IsBlank(w[|w| - 1])
  {
    var w := ValueWord(v);
    if v.Number? {
      var d := DecimalNat(if v.n < 0 then -v.n else v.n);
      assert w[|w| - 1] == d[|d| - 1] && d[|d| - 1] in d;
    }
  }

  lemma FramedThere(t: string, p: nat, w: string)
    requires 1 <= p && Stands(t, p, w) && t[p - 1] != '*' && w != ""
    ensures var f, u := Framed(w), " " + t[p..];
            && SamePrefix(f, u, |w| + 1) && Alike(u, 1, t, p) && |w| + 1 < |u|
            && |f| == |w| + 2 && f[|w| + 1] == ' ' && f[|w|] == w[|w| - 1] && EndsWord(u[|w| + 1])
  {
    var u := " " + t[p..];
    forall i | 0 <= i < |w| ensures u[i + 1] == w[i] {
      assert t[p..p + |w|][i] == t[p + i];
    }
    assert u[1..] == t[p..];
  }

  lemma OneWordWalk(t: string, p: nat, w: string)
    requires Stands(t, p, w) && WordLike(w)
    ensures Walk(t, p, p + |w|, [w])
  {
    OneWord(t, p, w);
    assert NextHead(t, p) == Some(p + |w|);
    assert HeadAt(t, p + |w|, p + |w|) && WordsTo(t, p + |w|, p + |w|) == [];
  }

  lemma GapWalk(t: string, p: nat)
    requires p < |t| && IsBlank(t[p])
    ensures Walk(t, p, p + 1, [])
  {
    assert NextHead(t, p) == Some(p + 1);
    assert HeadAt(t, p + 1, p + 1) && WordsTo(t, p + 1, p + 1) == [];
  }

  lemma StayWalk(t: string, p: nat)
    ensures Walk(t, p, p, [])
  {
  }

  lemma EqualsWalk(t: string, p: nat)
    requires p < |t| && t[p] == '='
    ensures Walk(t, p, p + 1, ["="])
  {
    assert NextHead(t, p) == Some(p + 1) && t[p..p + 1] == "=";
    assert HeadAt(t, p + 1, p + 1) && WordsTo(t, p + 1, p + 1) == [];
  }

  // --------------------------------------------------- what separates words

  /** Anything that may stand between two words: at least one of the four characters
      that end a word, and then any number of those that are skipped. */
  predicate Between(s: string) {
    s != "" && Breaks(s[0]) && forall c <- s :: Skips(c)
  }

  /** An entry with what is put before the key, before the '=' and before the value. */
  datatype Laid = Laid(entry: Entry, before: string, mid: string, after: string)

  function LaidText(l: Laid): string {
    l.before + l.entry.key + l.mid + "=" + l.after + ValueWord(l.entry.value)
  }

  function LaidEntries(ls: seq<Laid>): string {
    if ls == [] then "" else LaidText(ls[0]) + LaidEntries(ls[1..])
  }

  // A configuration in any such layout, and what is put before the closing brace.
  function ConfigText(ls: seq<Laid>, end: string): string {
    "{" + LaidEntries(ls) + end + "}"
  }

  // Nothing need stand around a '='.
  predicate WellLaid(l: Laid) {
    && Readable(l.entry) && Between(l.before) && (l.mid == "" || Between(l.mid)) && forall c <- l.after :: Skips(c)
  }

  predicate AllLaid(ls: seq<Laid>) {
    forall l <- ls :: WellLaid(l)
  }

  function AllWords(ls: seq<Laid>): seq<string> {
    if ls == [] then [] else EntryWords(ls[0].entry) + AllWords(ls[1..])
  }

  // The text has s at p.
  predicate Has(t: string, p: nat, s: string) {
    p + |s| <= |t| && t[p..p + |s|] == s
  }

  // The parser steps over it all.
  lemma {:induction false} OverSkips(t: string, p: nat, s: string, key: string)
    requires Has(t, p, s) && forall c <- s :: Skips(c)
    ensures Walk(t, p, p + |s|, [])
    ensures WordAfter(t, p) == WordAfter(t, p + |s|) && StringAt(t, p) == StringAt(t, p + |s|)
    ensures Find(t, p, key) == Find(t, p + |s|, key)
    decreases |s|
  {
    hide Walk, WordAfter, StringAt, Find, LexemeAt;
    if s == "" {
      StayWalk(t, p);
    } else {
      FirstSkip(t, p, s);
      GapWalk(t, p);
      BlankHead(t, p);
      FindStep(t, p, key);
      OverSkips(t, p + 1, s[1..], key);
      var none: seq<string> := [];
      assert none + none == none;
      WalkOn(t, p, p + 1, p + |s|, none, none);
    }
  }

  lemma FirstSkip(t: string, p: nat, s: string)
    requires Has(t, p, s) && s != "" && forall c <- s :: Skips(c)
    ensures p < |t| && IsBlank(t[p]) && Has(t, p + 1, s[1..]) && forall c <- s[1..] :: Skips(c)
  {
    assert t[p] == t[p..p + |s|][0] == s[0] && s[0] in s;
    assert t[p + 1..p + |s|] == t[p..p + |s|][1..] == s[1..];
  }

  lemma BlankHead(t: string, p: nat)
    requires p < |t| && IsBlank(t[p])
    ensures LexemeAt(t, p).Gap? && NextHead(t, p) == Some(p + 1)
  {
  }

  lemma WordHead(t: string, p: nat, w: string)
    requires Stands(t, p, w) && WordLike(w)
    ensures p + |w| <= |t| && LexemeAt(t, p) == Start && NextHead(t, p) == Some(p + |w|)
    ensures t[p..p + |w|] == w && CString(w) == w
  {
    OneWord(t, p, w);
    hide LexemeAt, WordFrom, CString, WordLike;
  }

  lemma EqualsHead(t: string, p: nat)
    requires p < |t| && t[p] == '='
    ensures LexemeAt(t, p) == Start && NextHead(t, p) == Some(p + 1) && t[p..p + 1] == "=" && CString("=") == "="
    ensures |t[p..p + 1]| < WORD_SIZE
  {
    assert t[p..p + 1] == "=";
  }

  // ------------------------------------------------------- an entry in a text

  // Where the parts of an entry stand.
  function KeyEnd(p: nat, l: Laid): nat {
    p + |l.before| + |l.entry.key|
  }

  function EqualsEnd(p: nat, l: Laid): nat {
    KeyEnd(p, l) + |l.mid| + 1
  }

  predicate PartsStand(t: string, p: nat, l: Laid) {
    var k, q := KeyEnd(p, l), EqualsEnd(p, l);
    && Has(t, p, l.before) && Stands(t, p + |l.before|, l.entry.key) && Has(t, k, l.mid)
    && q <= |t| && t[q - 1] == '=' && Has(t, q, l.after) && Stands(t, q + |l.after|, ValueWord(l.entry.value))
    && t[q + |l.after| - 1] != '*' && q + |l.after| + |ValueWord(l.entry.value)| == p + |LaidText(l)| <= |t|
  }

  // The parts of an entry's text.
  lemma TextSlices(l: Laid)
    ensures var x, v := LaidText(l), ValueWord(l.entry.value);
            var a, b, c := |l.before|, |l.before| + |l.entry.key|, |l.before| + |l.entry.key| + |l.mid|;
            var d := c + 1 + |l.after|;
            && |x| == d + |v| && x[0..a] == l.before && x[a..b] == l.entry.key && x[b..c] == l.mid && x[c] == '='
            && x[c + 1..d] == l.after && x[d..|x|] == v
  {
    hide ValueWord;
  }

  lemma SliceHas(t: string, p: nat, x: string, i: nat, j: nat)
    requires Has(t, p, x) && i <= j <= |x|
    ensures Has(t, p + i, x[i..j])
  {
    SliceAt(t, p, x, i, j);
  }

  lemma CharsThere(t: string, p: nat, x: string)
    requires Has(t, p, x)
    ensures p + |x| <= |t| && forall i :: 0 <= i < |x| ==> t[p + i] == x[i]
  {
    forall i | 0 <= i < |x| ensures t[p + i] == x[i] {
      assert t[p..p + |x|][i] == t[p + i];
    }
  }

  lemma StandsHas(t: string, p: nat, x: string)
    requires Stands(t, p, x)
    ensures Has(t, p, x) && p + |x| < |t|
  {
  }

  lemma PartsThere(t: string, p: nat, l: Laid)
    requires Stands(t, p, LaidText(l))
    ensures var k, q := KeyEnd(p, l), EqualsEnd(p, l);
            && Has(t, p, l.before) && Has(t, p + |l.before|, l.entry.key) && Has(t, k, l.mid)
            && q <= |t| && t[q - 1] == '=' && Has(t, q, l.after) && Has(t, q + |l.after|, ValueWord(l.entry.value))
            && q + |l.after| + |ValueWord(l.entry.value)| == p + |LaidText(l)| < |t|
    ensures forall i :: 0 <= i < |LaidText(l)| ==> t[p + i] == LaidText(l)[i]
  {
    hide Has, Stands, ValueWord, LaidText;
    var x := LaidText(l);
    var a, b, c := |l.before|, |l.before| + |l.entry.key|, |l.before| + |l.entry.key| + |l.mid|;
    TextSlices(l);
    StandsHas(t, p, x);
    CharsThere(t, p, x);
    SliceHas(t, p, x, 0, a);
    SliceHas(t, p, x, a, b);
    SliceHas(t, p, x, b, c);
    SliceHas(t, p, x, c + 1, c + 1 + |l.after|);
    SliceHas(t, p, x, c + 1 + |l.after|, |x|);
    assert t[p + c] == x[c];
  }

  lemma EntryStands(t: string, p: nat, l: Laid)
    requires WellLaid(l) && Stands(t, p, LaidText(l))
    ensures PartsStand(t, p, l)
  {
    hide ValueWord, LaidText, WellLaid;
    PartsThere(t, p, l);
    KeyIsFollowed(t, p, l);
    BeforeNotStar(t, p, l);
  }

  lemma KeyIsFollowed(t: string, p: nat, l: Laid)
    requires WellLaid(l) && p + |LaidText(l)| < |t| && forall i :: 0 <= i < |LaidText(l)| ==> t[p + i] == LaidText(l)[i]
    ensures Breaks(t[KeyEnd(p, l)]) || t[KeyEnd(p, l)] == '='
  {
    hide ValueWord, Readable;
    var x, b := LaidText(l), |l.before| + |l.entry.key|;
    assert t[p + b] == x[b];
    assert x[b] == if l.mid == "" then '=' else l.mid[0];
  }

  lemma BeforeNotStar(t: string, p: nat, l: Laid)
    requires WellLaid(l) && p + |LaidText(l)| < |t| && forall i :: 0 <= i < |LaidText(l)| ==> t[p + i] == LaidText(l)[i]
    ensures t[EqualsEnd(p, l) + |l.after| - 1] != '*'
  {
    hide ValueWord, Readable;
    var x, c := LaidText(l), |l.before| + |l.entry.key| + |l.mid|;
    assert t[p + (c + |l.after|)] == x[c + |l.after|];
    if l.after != "" {
      assert x[c + |l.after|] == l.after[|l.after| - 1] && l.after[|l.after| - 1] in l.after;
    }
  }

  lemma EntryShape(e: Entry)
    requires Readable(e)
    ensures WordLike(e.key) && InStep(e.value) && EntryWords(e) == [e.key] + (["="] + Pieces(e.value))
  {
    hide WordLike, InStep, Pieces;
  }

  lemma LaidShape(l: Laid)
    requires WellLaid(l)
    ensures Readable(l.entry) && (forall c <- l.before :: Skips(c)) && (forall c <- l.mid :: Skips(c))
    ensures forall c <- l.after :: Skips(c)
  {
    hide Readable;
  }

  lemma EntryWalk(t: string, p: nat, l: Laid)
    requires WellLaid(l) && Stands(t, p, LaidText(l))
    ensures Walk(t, p, p + |LaidText(l)|, EntryWords(l.entry))
  {
    hide *;
    var e := l.entry;
    LaidShape(l);
    EntryShape(e);
    EntryStands(t, p, l);
    PartsAre(t, p, l);
    var a, k, q := p + |l.before|, KeyEnd(p, l), EqualsEnd(p, l);
    var d, n := q + |l.after|, p + |LaidText(l)|;
    OverSkips(t, p, l.before, "");
    OneWordWalk(t, a, e.key);
    WalkOn(t, p, a, k, [], [e.key]);
    OverSkips(t, k, l.mid, "");
    EqualsWalk(t, q - 1);
    WalkOn(t, k, q - 1, q, [], ["="]);
    OverSkips(t, q, l.after, "");
    ValueWalk(t, d, e.value);
    WalkOn(t, q, d, n, [], Pieces(e.value));
    assert [] + [e.key] == [e.key] && [] + ["="] == ["="] && [] + Pieces(e.value) == Pieces(e.value);
    WalkOn(t, k, q, n, ["="], Pieces(e.value));
    WalkOn(t, p, k, n, [e.key], ["="] + Pieces(e.value));
  }

  lemma PartsAre(t: string, p: nat, l: Laid)
    requires PartsStand(t, p, l)
    ensures var k, q := KeyEnd(p, l), EqualsEnd(p, l);
            && k == p + |l.before| + |l.entry.key| && q == k + |l.mid| + 1
            && Has(t, p, l.before) && Stands(t, p + |l.before|, l.entry.key) && Has(t, k, l.mid)
            && q <= |t| && t[q - 1] == '=' && Has(t, q, l.after) && Stands(t, q + |l.after|, ValueWord(l.entry.value))
            && t[q + |l.after| - 1] != '*' && q + |l.after| + |ValueWord(l.entry.value)| == p + |LaidText(l)| <= |t|
  {
    hide Has, Stands, ValueWord, LaidText;
  }

  // The two answers, read behind the '='.
  predicate Behind(t: string, q: nat, v: Value) {
    && StringAt(t, q) == StrOf(v)
    && WordAfter(t, q).There? && Atoi(WordAfter(t, q).value.0) == if v.Number? then v.n else 0
  }

  lemma NumberBehind(t: string, q: nat, e: Entry)
    requires WordLike(e.key) && e.value.Number? && Stands(t, q, ValueWord(e.value)) && |ValueWord(e.value)| < WORD_SIZE
    ensures Behind(t, q, e.value)
  {
    hide WordLike, ValueWord, LexemeAt, WordFrom, CString, Atoi, StringAt, Stands;
    ValueIsWord(e);
    OneWord(t, q, ValueWord(e.value));
    StringOfValue(t, q, e);
    AtoiOfValue(e.value);
    FindStep(t, q, "");
  }

  lemma StringBehind(t: string, q: nat, s: string, n: nat)
    requires '"' !in s && Stands(t, q, ValueWord(Str(s))) && Walk(t, q, n, Pieces(Str(s))) && q < n && Fit(Pieces(Str(s)))
    ensures Behind(t, q, Str(s))
  {
    hide *;
    QuoteOfString(t, q, s);
    QuoteStart(t, q, n, Pieces(Str(s)));
    var e := NextHead(t, q).value;
    FindStep(t, q, "");
    StringHere(t, q);
    AtoiOfQuoted(t[q..e]);
    QuotedBehind(t, q, s, e);
  }

  lemma QuoteStart(t: string, q: nat, n: nat, ws: seq<string>)
    requires q < n && q < |t| && t[q] == '"' && Walk(t, q, n, ws) && Fit(ws)
    ensures LexemeAt(t, q) == Start && NextHead(t, q).Some?
    ensures |t[q..NextHead(t, q).value]| < WORD_SIZE && t[q..NextHead(t, q).value][0] == '"'
  {
    assert LexemeAt(t, q) == Start;
    var e := NextHead(t, q).value;
    hide LexemeAt, WordFrom;
    assert t[q..e] in [t[q..e]] + WordsTo(t, e, n);
  }

  lemma QuotedBehind(t: string, q: nat, s: string, e: nat)
    requires q < |t| && t[q] == '"' && StringAt(t, q) == QuotedAt(t, q)
    requires QuoteEnd(t, q + 1) == Some(q + |s| + 1) && q + |s| + 1 < |t| && t[q + 1..q + |s| + 1] == s
    requires q < e <= |t| && WordAfter(t, q) == There((CString(t[q..e]), e)) && Atoi(CString(t[q..e])) == 0
    ensures Behind(t, q, Str(s))
  {
    hide StringAt, WordAfter, Atoi, CString, QuoteEnd;
  }

  lemma AtoiOfQuoted(w: string)
    requires w != "" && w[0] == '"'
    ensures Atoi(CString(w)) == 0
  {
  }

  // The value, from the place where it stands.
  lemma ValueBehind(t: string, q: nat, e: Entry)
    requires Readable(e) && 1 <= q <= |t| && Stands(t, q, ValueWord(e.value)) && t[q - 1] != '*'
    ensures Behind(t, q, e.value)
  {
    hide *;
    Sizes(e);
    if e.value.Number? {
      NumberBehind(t, q, e);
    } else {
      ValueWalk(t, q, e.value);
      StringBehind(t, q, e.value.s, q + |ValueWord(e.value)|);
    }
  }

  lemma BehindSkips(t: string, q: nat, s: string, v: Value)
    requires Has(t, q, s) && (forall c <- s :: Skips(c)) && Behind(t, q + |s|, v)
    ensures Behind(t, q, v)
  {
    hide Has, WordAfter, StringAt, Atoi;
    OverSkips(t, q, s, "");
  }

  lemma Sizes(e: Entry)
    requires Readable(e)
    ensures WordLike(e.key) && InStep(e.value) && (e.value.Str? ==> '"' !in e.value.s)
    ensures |e.key| < WORD_SIZE && Fit(Pieces(e.value)) && |ValueWord(e.value)| > 0
    ensures e.value.Number? ==> |ValueWord(e.value)| < WORD_SIZE
  {
    var ws := EntryWords(e);
    if e.value.Number? {
      ValueIsWord(e);
    }
    hide InStep, WordLike, Pieces;
    assert e.key == ws[0] && forall w <- Pieces(e.value) :: w in ws;
    if e.value.Number? {
      OnePiece(e);
      assert ValueWord(e.value) in ws;
    }
  }

  // A value that is like a word is one piece.
  lemma OnePiece(e: Entry)
    requires WordLike(ValueWord(e.value))
    ensures Pieces(e.value) == [ValueWord(e.value)] && InStep(e.value)
  {
    var w := ValueWord(e.value);
    var t := Framed(w);
    assert t[1..1 + |w|] == w;
    hide WordLike, ValueWord;
    OneWordWalk(t, 1, w);
  }

  // The key of an entry, its '=' and its value.
  lemma EntryAnswers(t: string, p: nat, l: Laid)
    requires WellLaid(l) && Stands(t, p, LaidText(l))
    ensures Find(t, p, l.entry.key) == There(KeyEnd(p, l))
    ensures WordAfter(t, KeyEnd(p, l)) == There(("=", EqualsEnd(p, l)))
    ensures Behind(t, EqualsEnd(p, l), l.entry.value)
  {
    hide *;
    var e := l.entry;
    LaidShape(l);
    Sizes(e);
    EntryStands(t, p, l);
    PartsAre(t, p, l);
    var a, k, q := p + |l.before|, KeyEnd(p, l), EqualsEnd(p, l);
    OverSkips(t, p, l.before, e.key);
    WordHead(t, a, e.key);
    FindStep(t, a, e.key);
    OverSkips(t, k, l.mid, "");
    EqualsHead(t, q - 1);
    FindStep(t, q - 1, "");
    ValueBehind(t, q + |l.after|, e);
    BehindSkips(t, q, l.after, e.value);
  }

  // ---------------------------------------------------- a printed text

  // The first entry and the others.
  lemma Unfold(ls: seq<Laid>)
    requires AllLaid(ls) && ls != []
    ensures WellLaid(ls[0]) && AllLaid(ls[1..])
    ensures LaidEntries(ls) == LaidText(ls[0]) + LaidEntries(ls[1..])
    ensures AllWords(ls) == EntryWords(ls[0].entry) + AllWords(ls[1..])
  {
    hide WellLaid, LaidText, EntryWords;
  }

  lemma Empty()
    ensures LaidEntries([]) == "" && AllWords([]) == []
  {
  }

  // What follows an entry ends its value.
  lemma EntriesBegin(ls: seq<Laid>, rest: string)
    requires AllLaid(ls) && rest != "" && Breaks(rest[0])
    ensures var x := LaidEntries(ls) + rest; x != "" && Breaks(x[0])
  {
    if ls != [] {
      assert WellLaid(ls[0]);
      hide Readable, ValueWord;
    }
  }

  lemma EntriesSplit(t: string, p: nat, ls: seq<Laid>, rest: string)
    requires p <= |t| && ls != [] && AllLaid(ls) && t[p..] == LaidEntries(ls) + rest && rest != "" && Breaks(rest[0])
    ensures var n := |LaidText(ls[0])|;
            Stands(t, p, LaidText(ls[0])) && p + n <= |t| && t[p + n..] == LaidEntries(ls[1..]) + rest
  {
    hide LaidText, WellLaid, LaidEntries;
    Unfold(ls);
    EntriesBegin(ls[1..], rest);
    SplitText(t, p, LaidText(ls[0]), LaidEntries(ls[1..]), rest);
  }

  lemma {:induction false} EntriesWalk(t: string, p: nat, ls: seq<Laid>, rest: string)
    requires p <= |t| && t[p..] == LaidEntries(ls) + rest && rest != "" && Breaks(rest[0]) && AllLaid(ls)
    ensures p + |LaidEntries(ls)| <= |t| && Walk(t, p, p + |LaidEntries(ls)|, AllWords(ls))
    decreases |ls|
  {
    hide *;
    assert |t| == p + |LaidEntries(ls)| + |rest|;
    if ls == [] {
      Empty();
      StayWalk(t, p);
    } else {
      var n := p + |LaidText(ls[0])|;
      Unfold(ls);
      EntriesSplit(t, p, ls, rest);
      EntryWalk(t, p, ls[0]);
      EntriesWalk(t, n, ls[1..], rest);
      WalkOn(t, p, n, n + |LaidEntries(ls[1..])|, EntryWords(ls[0].entry), AllWords(ls[1..]));
    }
  }

  lemma {:induction false} AllWordsFit(ls: seq<Laid>)
    requires AllLaid(ls)
    ensures Fit(AllWords(ls))
  {
    hide EntryWords, WordLike, InStep;
    if ls != [] {
      assert WellLaid(ls[0]);
      AllWordsFit(ls[1..]);
    }
  }

  lemma {:induction false} EntriesJoin(ls: seq<Laid>, i: nat)
    requires i <= |ls|
    ensures LaidEntries(ls) == LaidEntries(ls[..i]) + LaidEntries(ls[i..])
  {
    hide LaidText;
    if i > 0 {
      EntriesJoin(ls[1..], i - 1);
      assert ls[..i][1..] == ls[1..][..i - 1] && ls[i..] == ls[1..][i - 1..];
    } else {
      assert ls[0..] == ls;
    }
  }

  // Where entry i begins in the text.
  function StartOf(ls: seq<Laid>, i: nat): nat
    requires i <= |ls|
  {
    1 + |LaidEntries(ls[..i])|
  }

  // The text from entry i on.
  function From(ls: seq<Laid>, i: nat, end: string): string
    requires i <= |ls|
  {
    LaidEntries(ls[i..]) + (end + "}")
  }

  lemma TextParts(ls: seq<Laid>, end: string, i: nat)
    requires AllLaid(ls) && Between(end) && i <= |ls|
    ensures var t := ConfigText(ls, end);
            && |t| > 0 && IsBlank(t[0]) && StartOf(ls, i) == 1 + |LaidEntries(ls[..i])|
            && t[1..] == LaidEntries(ls[..i]) + From(ls, i, end) && AllLaid(ls[..i]) && AllLaid(ls[i..])
            && StartOf(ls, i) <= |t| && t[StartOf(ls, i)..] == From(ls, i, end)
            && From(ls, i, end) != "" && Breaks(From(ls, i, end)[0])
  {
    hide WellLaid, LaidEntries;
    EntriesJoin(ls, i);
    EntriesBegin(ls[i..], end + "}");
    assert ConfigText(ls, end)[1..] == LaidEntries(ls[..i]) + From(ls, i, end);
    assert ConfigText(ls, end)[StartOf(ls, i)..] == From(ls, i, end);
  }

  lemma TextWalk(ls: seq<Laid>, end: string, i: nat)
    requires AllLaid(ls) && Between(end) && i <= |ls|
    ensures Walk(ConfigText(ls, end), 0, StartOf(ls, i), AllWords(ls[..i])) && Fit(AllWords(ls[..i]))
  {
    hide *;
    var t, ws := ConfigText(ls, end), AllWords(ls[..i]);
    TextParts(ls, end, i);
    EntriesWalk(t, 1, ls[..i], From(ls, i, end));
    AllWordsFit(ls[..i]);
    GapWalk(t, 0);
    WalkOn(t, 0, 1, StartOf(ls, i), [], ws);
    assert [] + ws == ws;
  }

  // ------------------------------------------------------------ round trip

  // No word that stands before entry i is its key.
  predicate Unhidden(ls: seq<Laid>, i: nat)
    requires i < |ls|
  {
    !Hits(AllWords(ls[..i]), ls[i].entry.key)
  }

  lemma AnswersFrom(t: string, p: nat, q: nat, e: Entry)
    requires Find(t, 0, e.key) == There(p) && WordAfter(t, p) == There(("=", q)) && Behind(t, q, e.value)
    ensures GivesBack(t, e) && OtherwisePlain(t, e)
  {
    hide Find, WordAfter, StringAt, Atoi;
  }

  /** Round trip for every layout, and for every string without a quote whose words
      bring the parser out at its end: the search stops at an entry's own key exactly
      when no word before it is that key, be it a key, a value or part of a string;
      and then both lookups answer as they should. */
  lemma FoundInPlace(ls: seq<Laid>, end: string, i: nat)
    requires AllLaid(ls) && Between(end) && i < |ls|
    ensures Find(ConfigText(ls, end), 0, ls[i].entry.key) == There(KeyEnd(StartOf(ls, i), ls[i])) <==> Unhidden(ls, i)
    ensures Unhidden(ls, i) ==> GivesBack(ConfigText(ls, end), ls[i].entry) && OtherwisePlain(ConfigText(ls, end), ls[i].entry)
  {
    hide *;
    var t, p := ConfigText(ls, end), StartOf(ls, i);
    EntryAt(ls, end, i);
    TextWalk(ls, end, i);
    EntryAnswers(t, p, ls[i]);
    InPlace(t, p, AllWords(ls[..i]), ls[i]);
  }

  lemma EntryAt(ls: seq<Laid>, end: string, i: nat)
    requires AllLaid(ls) && Between(end) && i < |ls|
    ensures WellLaid(ls[i]) && Stands(ConfigText(ls, end), StartOf(ls, i), LaidText(ls[i]))
    ensures Unhidden(ls, i) <==> !Hits(AllWords(ls[..i]), ls[i].entry.key)
  {
    hide WellLaid, ConfigText, Stands, LaidEntries, LaidText, Hits, Between;
    TextParts(ls, end, i);
    EndBreaks(end);
    EntriesSplit(ConfigText(ls, end), StartOf(ls, i), ls[i..], end + "}");
    assert ls[i..][0] == ls[i];
  }

  lemma EndBreaks(end: string)
    requires Between(end)
    ensures end + "}" != "" && Breaks((end + "}")[0])
  {
  }

  lemma InPlace(t: string, p: nat, ws: seq<string>, l: Laid)
    requires Walk(t, 0, p, ws) && Fit(ws) && WellLaid(l)
    requires Find(t, p, l.entry.key) == There(KeyEnd(p, l))
    requires WordAfter(t, KeyEnd(p, l)) == There(("=", EqualsEnd(p, l)))
    requires Behind(t, EqualsEnd(p, l), l.entry.value)
    ensures Find(t, 0, l.entry.key) == There(KeyEnd(p, l)) <==> !Hits(ws, l.entry.key)
    ensures !Hits(ws, l.entry.key) ==> GivesBack(t, l.entry) && OtherwisePlain(t, l.entry)
  {
    hide *;
    WalkFinds(t, p, ws, l.entry.key);
    KeyBehind(p, l);
    if !Hits(ws, l.entry.key) {
      AnswersFrom(t, KeyEnd(p, l), EqualsEnd(p, l), l.entry);
    }
  }

  lemma KeyBehind(p: nat, l: Laid)
    requires WellLaid(l)
    ensures KeyEnd(p, l) > p
  {
    hide Readable;
  }

  lemma WalkFinds(t: string, p: nat, ws: seq<string>, key: string)
    requires Walk(t, 0, p, ws) && Fit(ws)
    ensures !Hits(ws, key) ==> Find(t, 0, key) == Find(t, p, key)
    ensures Hits(ws, key) ==> Find(t, 0, key).There? && Find(t, 0, key).value <= p
  {
    hide HeadAt, WordsTo, Find, Fit, Hits;
    FindAlong(t, 0, p, key);
  }

  // Blanks only: the printer of the plain round trip.
  function Plainly(cfg: seq<Entry>): seq<Laid> {
    if cfg == [] then [] else [Laid(cfg[0], " ", " ", " ")] + Plainly(cfg[1..])
  }

  lemma {:induction false} PlainlyText(cfg: seq<Entry>)
    ensures LaidEntries(Plainly(cfg)) == Entries(cfg)
  {
    hide ValueWord;
    if cfg != [] {
      PlainlyText(cfg[1..]);
      var l := Laid(cfg[0], " ", " ", " ");
      assert LaidText(l) == EntryText(cfg[0]) by { PlainlyEntry(cfg[0]); }
      assert Plainly(cfg)[1..] == Plainly(cfg[1..]);
    }
  }

  lemma PlainlyEntry(e: Entry)
    ensures LaidText(Laid(e, " ", " ", " ")) == EntryText(e)
  {
    hide ValueWord;
    assert " " + "=" + " " == " = ";
    assert LaidText(Laid(e, " ", " ", " ")) == " " + e.key + (" " + "=" + " ") + ValueWord(e.value);
  }

  /** What the plain printer prints is one such text. */
  lemma PrintIsText(cfg: seq<Entry>)
    ensures Print(cfg) == ConfigText(Plainly(cfg), " ")
  {
    PlainlyText(cfg);
    assert " " + "}" == " }";
    assert "{" + Entries(cfg) + (" " + "}") == "{" + Entries(cfg) + " " + "}";
  }

  // ------------------------------------------------------ any key at all

  // The first of the words that is the key.
  function FirstHit(ws: seq<string>, key: string): (i: nat)
    ensures i <= |ws| && (i < |ws| ==> CString(ws[i]) == key)
    ensures forall j :: 0 <= j < i ==> CString(ws[j]) != key
  {
    if ws == [] then 0 else if CString(ws[0]) == key then 0 else 1 + FirstHit(ws[1..], key)
  }

  // Behind the words, whatever they are, there is no other.
  predicate LastWalk(t: string, p: nat, h: nat, ws: seq<string>) {
    Walk(t, p, h, ws) && Fit(ws) && WordAfter(t, h) == NotThere
  }

  lemma {:induction false} NextOfWalk(t: string, p: nat, h: nat, ws: seq<string>)
    requires LastWalk(t, p, h, ws)
    ensures ws == [] ==> WordAfter(t, p) == NotThere
    ensures ws != [] ==>
              && WordAfter(t, p).There? && WordAfter(t, p).value.0 == CString(ws[0])
              && LastWalk(t, WordAfter(t, p).value.1, h, ws[1..])
    decreases |t| - p
  {
    hide LexemeAt, WordFrom, CString, WordAfter, Find;
    if p != h {
      var e := NextHead(t, p).value;
      var rest := WordsTo(t, e, h);
      HeadsGoOn(t, e, h);
      FindStep(t, p, "");
      assert ws == (if LexemeAt(t, p).Start? then [t[p..e]] else []) + rest;
      assert forall w <- rest :: w in ws;
      if LexemeAt(t, p).Start? {
        assert ws[0] == t[p..e] && ws[0] in ws && ws[1..] == rest;
      } else {
        assert ws == rest;
        NextOfWalk(t, e, h, rest);
      }
    }
  }

  lemma {:induction false} FindHit(t: string, p: nat, h: nat, ws: seq<string>, key: string)
    requires LastWalk(t, p, h, ws)
    ensures FirstHit(ws, key) == |ws| ==> Find(t, p, key) == NotThere
    ensures FirstHit(ws, key) < |ws| ==>
              Find(t, p, key).There? && LastWalk(t, Find(t, p, key).value, h, ws[FirstHit(ws, key) + 1..])
    decreases |ws|
  {
    hide LastWalk, WordAfter, CString;
    NextOfWalk(t, p, h, ws);
    if ws != [] && CString(ws[0]) != key {
      FindHit(t, WordAfter(t, p).value.1, h, ws[1..], key);
      var i := FirstHit(ws[1..], key);
      if i < |ws[1..]| {
        assert ws[1..][i + 1..] == ws[i + 2..];
      }
    }
  }

  function AnswerOf(q: Quoted): Answer<string> {
    match q case Unclosed => Lost case NoString => NotThere case Text(s) => There(s)
  }

  // The key's first occurrence is followed by a word '='.
  predicate HasEquals(ws: seq<string>, key: string) {
    var i := FirstHit(ws, key);
    i + 1 < |ws| && CString(ws[i + 1]) == "="
  }

  // What a lookup of a number finds among the words.
  function WordLookup(ws: seq<string>, key: string): Answer<int> {
    var i := FirstHit(ws, key);
    if HasEquals(ws, key) && i + 2 < |ws| then There(Atoi(CString(ws[i + 2]))) else NotThere
  }

  lemma WalkAnswers(t: string, h: nat, ws: seq<string>, key: string)
    requires LastWalk(t, 0, h, ws)
    ensures ValueAnswer(t, key) == WordLookup(ws, key)
    ensures !HasEquals(ws, key) ==> StringAnswer(t, key) == NotThere
    ensures HasEquals(ws, key) ==>
              FindValue(t, key).There? && LastWalk(t, FindValue(t, key).value, h, ws[FirstHit(ws, key) + 2..])
              && StringAnswer(t, key) == AnswerOf(StringAt(t, FindValue(t, key).value))
  {
    hide LastWalk, WordAfter, Find, FirstHit, CString, Atoi, StringAt;
    var i := FirstHit(ws, key);
    FindHit(t, 0, h, ws, key);
    if i < |ws| {
      var p := Find(t, 0, key).value;
      NextOfWalk(t, p, h, ws[i + 1..]);
      if i + 1 < |ws| {
        assert ws[i + 1..][1..] == ws[i + 2..];
        NextOfWalk(t, WordAfter(t, p).value.1, h, ws[i + 2..]);
      }
    }
  }

  lemma WholeWalk(ls: seq<Laid>, end: string)
    requires AllLaid(ls) && Between(end)
    ensures LastWalk(ConfigText(ls, end), 0, StartOf(ls, |ls|), AllWords(ls))
  {
    assert ls[..|ls|] == ls && ls[|ls|..] == [];
    hide Walk, Fit, AllWords, AllLaid, Between, ConfigText, WordAfter;
    TextParts(ls, end, |ls|);
    TextWalk(ls, end, |ls|);
    EndsThere(ConfigText(ls, end), StartOf(ls, |ls|), end);
  }

  lemma EndsThere(t: string, p: nat, end: string)
    requires p <= |t| && t[p..] == LaidEntries([]) + (end + "}") && Between(end)
    ensures WordAfter(t, p) == NotThere
  {
    var q := p + |end|;
    assert t[p..] == end + "}";
    assert t[p..q] == t[p..][..|end|] == end && t[q] == t[p..][|end|] == '}';
    hide Skips, WordAfter;
    OverSkips(t, p, end, "");
    ClosedThere(t, q);
  }

  lemma ClosedThere(t: string, q: nat)
    requires q < |t| && t[q] == '}'
    ensures WordAfter(t, q) == NotThere
  {
    assert LexemeAt(t, q) == Close && SkipFrom(t, q) == Stop(q);
  }

  /** What any key finds in a text of any layout, be it the key of an entry or not: the
      number after the first word that is the key, if '=' and another word follow it
      there; and the string that begins behind that '='. So a key that no entry has is
      found exactly when it is a word inside a string, and first there, with '=' and
      something more behind it. */
  lemma AnyKey(ls: seq<Laid>, end: string, key: string)
    requires AllLaid(ls) && Between(end)
    ensures ValueAnswer(ConfigText(ls, end), key) == WordLookup(AllWords(ls), key)
    ensures !HasEquals(AllWords(ls), key) ==> StringAnswer(ConfigText(ls, end), key) == NotThere
    ensures HasEquals(AllWords(ls), key) ==>
              var q := FindValue(ConfigText(ls, end), key);
              && q.There? && StringAnswer(ConfigText(ls, end), key) == AnswerOf(StringAt(ConfigText(ls, end), q.value))
              && LastWalk(ConfigText(ls, end), q.value, StartOf(ls, |ls|), AllWords(ls)[FirstHit(AllWords(ls), key) + 2..])
  {
    hide *;
    WholeWalk(ls, end);
    WalkAnswers(ConfigText(ls, end), StartOf(ls, |ls|), AllWords(ls), key);
  }

  /** A key that is no word of the text is not found. */
  lemma NoSuchWord(ls: seq<Laid>, end: string, key: string)
    requires AllLaid(ls) && Between(end) && !Hits(AllWords(ls), key)
    ensures ValueAnswer(ConfigText(ls, end), key) == NotThere && StringAnswer(ConfigText(ls, end), key) == NotThere
  {
    hide ConfigText, AllLaid, Between, AllWords, FirstHit, ValueAnswer, StringAnswer;
    AnyKey(ls, end, key);
  }

  /** Every entry of the plain round trip is readable, its value one word. */
  lemma PlainIsReadable(e: Entry)
    requires WellFormed(e) && |e.key| < WORD_SIZE && |ValueWord(e.value)| < WORD_SIZE
    ensures Readable(e) && EntryWords(e) == [e.key, "=", ValueWord(e.value)]
  {
    ValueIsWord(e);
    OnePiece(e);
    hide WordLike, ValueWord, Pieces, InStep;
    if e.value.Str? {
      assert '"' !in e.value.s;
    }
  }

  // ------------------------------------------- strings with blanks in them

  // Parts with a blank between any two.
  function Spaced(parts: seq<string>): string {
    if parts == [] then ""
    else if |parts| == 1 then parts[0]
    else parts[0] + " " + Spaced(parts[1..])
  }

  // Two blanks in a row make an empty part.
  predicate PartOk(w: string) {
    w == "" || w == "=" || WordLike(w)
  }

  function NonEmpty(parts: seq<string>): seq<string> {
    if parts == [] then []
    else (if parts[0] == "" then [] else [parts[0]]) + NonEmpty(parts[1..])
  }

  lemma PartWalk(t: string, p: nat, w: string)
    requires Stands(t, p, w) && PartOk(w)
    ensures Walk(t, p, p + |w|, if w == "" then [] else [w])
  {
    hide Walk, WordLike;
    if w == "" {
      StayWalk(t, p);
    } else if w == "=" {
      assert t[p] == t[p..p + 1][0];
      EqualsWalk(t, p);
    } else {
      OneWordWalk(t, p, w);
    }
  }

  lemma SpacedParts(t: string, p: nat, w: string, rest: string)
    requires Stands(t, p, w + " " + rest)
    ensures Stands(t, p, w) && t[p + |w|] == ' ' && Stands(t, p + |w| + 1, rest)
  {
    var x := w + " " + rest;
    assert forall i :: 0 <= i < |x| ==> x[i] == t[p + i];
    assert t[p..p + |w|] == x[..|w|] == w;
    assert t[p + |w|] == x[|w|];
    assert t[p + |w| + 1..p + |x|] == x[|w| + 1..] == rest;
  }

  lemma {:induction false} SpacedWalk(t: string, p: nat, parts: seq<string>)
    requires parts != [] && Stands(t, p, Spaced(parts)) && forall w <- parts :: PartOk(w)
    ensures Walk(t, p, p + |Spaced(parts)|, NonEmpty(parts))
    decreases |parts|
  {
    hide Walk, PartOk;
    var w := parts[0];
    if |parts| == 1 {
      PartWalk(t, p, w);
      assert NonEmpty(parts) == if w == "" then [] else [w];
    } else {
      var rest := Spaced(parts[1..]);
      SpacedParts(t, p, w, rest);
      hide Spaced, Stands;
      PartThenBlank(t, p, w);
      SpacedWalk(t, p + |w| + 1, parts[1..]);
      WalkOn(t, p, p + |w| + 1, p + |w| + 1 + |rest|, if w == "" then [] else [w], NonEmpty(parts[1..]));
    }
  }

  lemma PartThenBlank(t: string, p: nat, w: string)
    requires Stands(t, p, w) && PartOk(w) && t[p + |w|] == ' '
    ensures Walk(t, p, p + |w| + 1, if w == "" then [] else [w])
  {
    hide Walk, PartOk;
    PartWalk(t, p, w);
    GapWalk(t, p + |w|);
    var ws := if w == "" then [] else [w];
    WalkOn(t, p, p + |w|, p + |w| + 1, ws, []);
    assert ws + [] == ws;
  }

  /** A string in quotes whose parts between blanks begin no comment and no brace
      keeps the parser in step, and its pieces are those parts. */
  lemma SpacedInStep(s: string, parts: seq<string>)
    requires ValueWord(Str(s)) == Spaced(parts) && forall w <- parts :: PartOk(w)
    ensures InStep(Str(s)) && Pieces(Str(s)) == NonEmpty(parts)
  {
    var w := Spaced(parts);
    assert Stands(Framed(w), 1, w) by { assert Framed(w)[1..1 + |w|] == w; }
    hide PartOk, Spaced, Framed, NonEmpty;
    assert parts != [] by { assert Spaced([]) == "" by { SpacedNothing(); } }
    SpacedWalk(Framed(w), 1, parts);
  }

  lemma SpacedNothing()
    ensures Spaced([]) == ""
  {
  }
}
