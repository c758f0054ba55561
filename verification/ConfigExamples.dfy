/** Two texts that show where the round trip and the freedom of layout end. */
module ConfigExamples {
  import opened TextSpec
  import opened TextInsertion
  import opened ConfigRoundTrip
  import opened ConfigStrings

  lemma Words()
    ensures WordLike("s") && WordLike("k") && WordLike("\"x") && WordLike("y\"") && WordLike("5\"") && WordLike("5")
  {
  }

  lemma SpacedPair(a: string, b: string)
    ensures Spaced([a, b]) == a + " " + b
    ensures NonEmpty([a, b]) == (if a == "" then [] else [a]) + if b == "" then [] else [b]
  {
    assert [a, b][1..] == [b] && [b][1..] == [];
    assert Spaced([b]) == b && NonEmpty([b][1..]) == [];
    assert NonEmpty([b]) == if b == "" then [] else [b];
  }

  lemma SpacedMore(a: string, parts: seq<string>)
    requires parts != [] && a != ""
    ensures Spaced([a] + parts) == a + " " + Spaced(parts) && NonEmpty([a] + parts) == [a] + NonEmpty(parts)
  {
    assert ([a] + parts)[1..] == parts;
  }

  // ------------------------------------------------- a value found by chance

  const CHANCE: seq<Laid> := [Laid(Entry("s", Str("x k = 5")), " ", " ", " "), Laid(Entry("k", Number(5)), "\r\n\t", "", "")]

  lemma ChanceParts()
    ensures Spaced(["\"x", "k", "=", "5\""]) == "\"x k = 5\""
    ensures NonEmpty(["\"x", "k", "=", "5\""]) == ["\"x", "k", "=", "5\""]
  {
    SpacedPair("=", "5\"");
    SpacedMore("k", ["=", "5\""]);
    SpacedMore("\"x", ["k", "=", "5\""]);
    assert ["k"] + ["=", "5\""] == ["k", "=", "5\""];
    assert ["\"x"] + ["k", "=", "5\""] == ["\"x", "k", "=", "5\""];
  }

  lemma ChanceString()
    ensures InStep(Str("x k = 5")) && Pieces(Str("x k = 5")) == ["\"x", "k", "=", "5\""]
  {
    ChanceParts();
    Words();
    hide WordLike, InStep, Pieces, Spaced, NonEmpty;
    assert ValueWord(Str("x k = 5")) == "\"x k = 5\"";
    SpacedInStep("x k = 5", ["\"x", "k", "=", "5\""]);
  }

  lemma FiveIsFive()
    ensures ValueWord(Number(5)) == "5"
  {
    assert DecimalNat(5) == "5";
  }

  // The second entry is on a line of its own, with nothing around its '='.
  lemma ChanceReadable()
    ensures AllLaid(CHANCE) && |CHANCE| == 2 && CHANCE[1].entry == Entry("k", Number(5))
    ensures AllWords(CHANCE[..1]) == ["s", "=", "\"x", "k", "=", "5\""]
    ensures AllWords(CHANCE) == ["s", "=", "\"x", "k", "=", "5\"", "k", "=", "5"]
  {
    ChanceString();
    FiveIsFive();
    Words();
    hide WordLike, InStep, Pieces, ValueWord;
    OnePiece(Entry("k", Number(5)));
    assert Readable(CHANCE[0].entry) && Readable(CHANCE[1].entry);
    assert WellLaid(CHANCE[0]) && WellLaid(CHANCE[1]);
    assert CHANCE[..1] == [CHANCE[0]] && CHANCE[1..] == [CHANCE[1]];
    assert AllWords([CHANCE[0]]) == EntryWords(CHANCE[0].entry) + AllWords([]);
    assert AllWords([CHANCE[1]]) == EntryWords(CHANCE[1].entry) + AllWords([]);
  }

  lemma Quoted(s: string)
    ensures ValueWord(Str(s)) == "\"" + s + "\""
  {
  }

  // Six words in which "k" comes fourth.
  lemma FourthWord(rest: seq<string>)
    ensures var ws := ["s", "=", "\"x", "k", "=", "5\""] + rest;
            FirstHit(ws, "k") == 3 && Hits(ws, "k") && WordLookup(ws, "k") == There(5)
  {
    var ws := ["s", "=", "\"x", "k", "=", "5\""] + rest;
    assert CString("s") == "s" && CString("=") == "=" && CString("\"x")[0] == '"' && CString("k") == "k";
    assert CString("5\"") == "5\"" && Atoi("5\"") == 5;
    hide CString, Atoi;
    assert ws[0] == "s" && ws[1] == "=" && ws[2] == "\"x" && ws[3] == "k" && ws[4] == "=" && ws[5] == "5\"";
    assert FirstHit(ws, "k") == 3;
  }

  /** With blanks in strings the value can come back from the wrong place: the
      search stops inside the first string, at "k", and reads 5 there as well. */
  lemma RightByChance()
    ensures AllLaid(CHANCE) && !Unhidden(CHANCE, 1) && GivesBack(ConfigText(CHANCE, " "), CHANCE[1].entry)
  {
    hide *;
    ChanceReadable();
    FourthWord([]);
    FourthWord(["k", "=", "5"]);
    ChanceLists();
    OneBlank();
    AnyKey(CHANCE, " ", "k");
    Given(ConfigText(CHANCE, " "), CHANCE[1].entry);
    Hidden(CHANCE, 1);
  }

  lemma ChanceLists()
    ensures ["s", "=", "\"x", "k", "=", "5\""] + [] == ["s", "=", "\"x", "k", "=", "5\""]
    ensures ["s", "=", "\"x", "k", "=", "5\""] + ["k", "=", "5"] == ["s", "=", "\"x", "k", "=", "5\"", "k", "=", "5"]
  {
  }

  lemma OneBlank()
    ensures Between(" ")
  {
  }

  /** And a key that no entry has can be found inside a string. */
  lemma FoundInString()
    ensures var ls := CHANCE[..1];
            AllLaid(ls) && (forall l <- ls :: l.entry.key != "k") && ValueAnswer(ConfigText(ls, " "), "k") == There(5)
  {
    hide *;
    ChanceReadable();
    FourthWord([]);
    ChanceLists();
    OnlyS();
    OneBlank();
    AnyKey(CHANCE[..1], " ", "k");
  }

  lemma OnlyS()
    requires AllLaid(CHANCE)
    ensures AllLaid(CHANCE[..1]) && forall l <- CHANCE[..1] :: l.entry.key != "k"
  {
    hide WellLaid;
    assert CHANCE[..1] == [CHANCE[0]];
  }

  lemma Hidden(ls: seq<Laid>, i: nat)
    requires i < |ls| && Hits(AllWords(ls[..i]), ls[i].entry.key)
    ensures !Unhidden(ls, i)
  {
    hide Hits, AllWords;
  }

  lemma Given(t: string, e: Entry)
    requires e.value.Number? && ValueAnswer(t, e.key) == There(e.value.n)
    ensures GivesBack(t, e)
  {
    hide ValueAnswer, StringAnswer;
  }

  // ------------------------------------------------- layout inside a string

  lemma LayoutParts()
    ensures Spaced(["\"x", "y\""]) == ValueWord(Str("x y")) && NonEmpty(["\"x", "y\""]) == ["\"x", "y\""]
    ensures Spaced(["\"x", "", "y\""]) == ValueWord(Str("x  y")) && NonEmpty(["\"x", "", "y\""]) == ["\"x", "y\""]
  {
    SpacedPair("\"x", "y\"");
    SpacedPair("", "y\"");
    SpacedMore("\"x", ["", "y\""]);
    assert ["\"x"] + ["", "y\""] == ["\"x", "", "y\""];
    Quoted("x y");
    Quoted("x  y");
    hide Spaced, NonEmpty, ValueWord;
  }

  lemma PartsOk()
    ensures PartOk("\"x") && PartOk("y\"") && PartOk("")
  {
    Words();
    hide WordLike;
  }

  lemma LayoutStrings()
    ensures InStep(Str("x y")) && Pieces(Str("x y")) == ["\"x", "y\""]
    ensures InStep(Str("x  y")) && Pieces(Str("x  y")) == ["\"x", "y\""]
  {
    hide *;
    LayoutParts();
    PartsOk();
    SpacedInStep("x y", ["\"x", "y\""]);
    SpacedInStep("x  y", ["\"x", "", "y\""]);
  }

  function One(s: string): seq<Laid> {
    [Laid(Entry("k", Str(s)), " ", " ", " ")]
  }

  lemma OneEntry(s: string)
    requires InStep(Str(s)) && '"' !in s && Pieces(Str(s)) == ["\"x", "y\""]
    ensures StringAnswer("{ k = \"" + s + "\" }", "k") == There(s)
  {
    hide *;
    OneReadable(s);
    OneText(s);
    OneBlank();
    FoundInPlace(One(s), " ", 0);
    GivenString(ConfigText(One(s), " "), s);
  }

  lemma GivenString(t: string, s: string)
    requires GivesBack(t, Entry("k", Str(s)))
    ensures StringAnswer(t, "k") == There(s)
  {
    hide StringAnswer;
  }

  lemma OneReadable(s: string)
    requires InStep(Str(s)) && '"' !in s && Pieces(Str(s)) == ["\"x", "y\""]
    ensures |One(s)| == 1 && One(s)[0].entry == Entry("k", Str(s)) && AllLaid(One(s)) && Unhidden(One(s), 0)
  {
    Words();
    hide WordLike, InStep, Pieces;
    assert Readable(Entry("k", Str(s)));
    assert One(s)[..0] == [];
  }

  lemma OneText(s: string)
    ensures ConfigText(One(s), " ") == "{ k = \"" + s + "\" }"
  {
    Quoted(s);
    hide ValueWord;
    assert One(s)[1..] == [];
    assert LaidEntries(One(s)) == LaidText(One(s)[0]) + "";
    assert LaidText(One(s)[0]) == " k = \"" + s + "\"";
  }

  lemma LayoutPlaces(t: string)
    requires t == "{ k = \"x y\" }"
    ensures Stands(t, 2, "k") && Stands(t, 6, "\"x")
    ensures |t| > 5 && IsBlank(t[0]) && IsBlank(t[1]) && IsBlank(t[3]) && IsBlank(t[5]) && t[4] == '='
  {
  }

  lemma ToTheBreak(t: string)
    requires t == "{ k = \"x y\" }"
    ensures HeadAt(t, 0, 8)
  {
    hide *;
    LayoutPlaces(t);
    Words();
    var none: seq<string> := [];
    GapWalk(t, 0);
    GapWalk(t, 1);
    WalkOn(t, 0, 1, 2, none, none);
    OneWordWalk(t, 2, "k");
    WalkOn(t, 0, 2, 3, none + none, ["k"]);
    GapWalk(t, 3);
    EqualsWalk(t, 4);
    WalkOn(t, 3, 4, 5, none, ["="]);
    GapWalk(t, 5);
    OneWordWalk(t, 6, "\"x");
    WalkOn(t, 5, 6, 8, none, ["\"x"]);
    WalkOn(t, 3, 5, 8, none + ["="], none + ["\"x"]);
    WalkOn(t, 0, 3, 8, none + none + ["k"], none + ["="] + (none + ["\"x"]));
    WalkHead(t, 8, none + none + ["k"] + (none + ["="] + (none + ["\"x"])));
  }

  lemma WalkHead(t: string, h: nat, ws: seq<string>)
    requires Walk(t, 0, h, ws)
    ensures HeadAt(t, 0, h)
  {
  }

  /** Layout matters inside a string: one blank more, where the parser takes it for
      a blank, and the value is another. */
  lemma LayoutInString()
    ensures var a, s, b := "{ k = \"x ", " ", "y\" }";
            && Break(a[|a| - 1]) && HeadAt(a + b, 0, |a| - 1) && IsLayout(s)
            && StringAnswer(a + b, "k") == There("x y") && StringAnswer(a + s + b, "k") == There("x  y")
  {
    hide HeadAt, StringAnswer, InStep, Pieces;
    var a, s, b := "{ k = \"x ", " ", "y\" }";
    assert a + b == "{ k = \"x y\" }" == "{ k = \"" + "x y" + "\" }";
    assert a + s + b == "{ k = \"" + "x  y" + "\" }";
    ToTheBreak(a + b);
    LayoutStrings();
    OneEntry("x y");
    OneEntry("x  y");
  }
}
