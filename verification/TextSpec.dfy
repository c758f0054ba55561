/** The configuration text as a stream of words: a specification by position,
    in which a scan that would leave the buffer has the outcome Overrun. */
module TextSpec {
  import opened Wrappers

  // What SkipNoneCommand steps over one by one.
  predicate IsBlank(c: char) {
    c == '{' || c == '.' || c == ',' || c == ' ' || c == '\U{08}' || c == '\t' || c == '\n' || c == '\r'
  }

  // What ends a word.
  predicate EndsWord(c: char) {
    c == ' ' || c == '=' || c == '\t' || c == '\n' || c == '\r'
  }

  // The first place from q on where '*' is followed by '/': the place of the '/'.
  function CommentEnd(t: string, q: nat): Option<nat>
    requires q >= 1
    decreases |t| - q
  {
    if q >= |t| then None
    else if t[q - 1] == '*' && t[q] == '/' then Some(q)
    else CommentEnd(t, q + 1)
  }

  function LineEnd(t: string, q: nat): Option<nat>
    decreases |t| - q
  {
    if q >= |t| then None else if t[q] == '\r' then Some(q) else LineEnd(t, q + 1)
  }

  function WordEnd(t: string, q: nat): Option<nat>
    decreases |t| - q
  {
    if q >= |t| then None else if EndsWord(t[q]) then Some(q) else WordEnd(t, q + 1)
  }

  function QuoteEnd(t: string, q: nat): Option<nat>
    decreases |t| - q
  {
    if q >= |t| then None else if t[q] == '"' then Some(q) else QuoteEnd(t, q + 1)
  }

  /** What begins at position p: the closing brace, a gap of len characters (one
      blank, or a comment), or something else. The search for the end of a
      comment begins by looking at the character before it. */
  datatype Lexeme = Close | Gap(len: nat) | Start | Outside

  function LexemeAt(t: string, p: nat): (x: Lexeme)
    ensures x.Gap? ==> 0 < x.len && p + x.len <= |t|
    ensures x.Start? || x.Close? ==> p < |t|
  {
    if p >= |t| then Outside
    else if t[p] == '}' then Close
    else if IsBlank(t[p]) then Gap(1)
    else if t[p] != '/' then Start
    else if p + 1 >= |t| then Outside
    else if t[p + 1] == '*' then
      if p == 0 then Outside
      else
        CommentEndBounds(t, p);
        match CommentEnd(t, p) { case None => Outside case Some(q) => Gap(q + 1 - p) }
    else if t[p + 1] == '/' then
      LineEndBounds(t, p);
      match LineEnd(t, p) { case None => Outside case Some(q) => Gap(q - p) }
    else Start
  }

  lemma {:induction false} CommentEndBounds(t: string, q: nat)
    requires q >= 1
    ensures CommentEnd(t, q).Some? ==>
              var e := CommentEnd(t, q).value;
              q <= e < |t| && t[e - 1] == '*' && t[e] == '/' && forall i :: q <= i < e ==> t[i - 1] != '*' || t[i] != '/'
    decreases |t| - q
  {
    if q < |t| && !(t[q - 1] == '*' && t[q] == '/') {
      CommentEndBounds(t, q + 1);
    }
  }

  lemma {:induction false} LineEndBounds(t: string, q: nat)
    ensures LineEnd(t, q).Some? ==>
              var e := LineEnd(t, q).value;
              q <= e < |t| && t[e] == '\r' && forall i :: q <= i < e ==> t[i] != '\r'
    decreases |t| - q
  {
    if q < |t| && t[q] != '\r' {
      LineEndBounds(t, q + 1);
    }
  }

  lemma {:induction false} WordEndBounds(t: string, q: nat)
    ensures WordEnd(t, q).Some? ==>
              var e := WordEnd(t, q).value;
              q <= e < |t| && EndsWord(t[e]) && forall i :: q <= i < e ==> !EndsWord(t[i])
    decreases |t| - q
  {
    if q < |t| && !EndsWord(t[q]) {
      WordEndBounds(t, q + 1);
    }
  }

  lemma {:induction false} QuoteEndBounds(t: string, q: nat)
    ensures QuoteEnd(t, q).Some? ==>
              var e := QuoteEnd(t, q).value;
              q <= e < |t| && t[e] == '"' && forall i :: q <= i < e ==> t[i] != '"'
    decreases |t| - q
  {
    if q < |t| && t[q] != '"' {
      QuoteEndBounds(t, q + 1);
    }
  }

  // Where SkipNoneCommand comes to rest.
  datatype Rest = Stop(pos: nat) | At(pos: nat) | Overrun

  function SkipFrom(t: string, p: nat): (r: Rest)
    ensures r.Stop? || r.At? ==> p <= r.pos < |t|
    ensures r.Stop? ==> t[r.pos] == '}'
    ensures r.At? ==> LexemeAt(t, r.pos) == Start
    decreases |t| - p
  {
    match LexemeAt(t, p)
    case Outside => Overrun
    case Close => Stop(p)
    case Start => At(p)
    case Gap(n) => SkipFrom(t, p + n)
  }

  // The end of the word that begins at p; '=' is a word by itself.
  function WordFrom(t: string, p: nat): (e: Option<nat>)
    requires LexemeAt(t, p) == Start
    ensures e.Some? ==> p < e.value <= |t|
  {
    if t[p] == '=' then Some(p + 1)
    else
      WordEndBounds(t, p);
      WordEnd(t, p)
  }

  // What GetNextWord returns, and where it leaves the pointer.
  datatype Next = Word(start: nat, end: nat) | NoWord | OffEnd

  function NextWord(t: string, p: nat): (x: Next)
    ensures x.Word? ==> p <= x.start < x.end <= |t|
  {
    match SkipFrom(t, p)
    case Overrun => OffEnd
    case Stop(_) => NoWord
    case At(q) => match WordFrom(t, q) { case None => OffEnd case Some(e) => Word(q, e) }
  }

  // What GetStringWord returns.
  datatype Quoted = NoString | Text(s: string) | Unclosed

  function StringAt(t: string, p: nat): Quoted {
    match SkipFrom(t, p)
    case Overrun => Unclosed
    case Stop(_) => NoString
    case At(q) =>
      if t[q] != '"' then NoString
      else
        QuoteEndBounds(t, q + 1);
        match QuoteEnd(t, q + 1) { case None => Unclosed case Some(e) => Text(t[q + 1..e]) }
  }

  // A word as the C string functions see it.
  function CString(w: string): (s: string)
    ensures |s| <= |w|
  {
    if w == "" || w[0] == '\0' then "" else [w[0]] + CString(w[1..])
  }

  /** A word of the text and, for a word '=', the string that follows it. */
  datatype Token = Token(word: string, str: Quoted)

  function TokenOf(t: string, start: nat, end: nat): Token
    requires start < end <= |t|
  {
    var w := CString(t[start..end]);
    Token(w, if w == "=" then StringAt(t, end) else NoString)
  }

  // All words from p to the closing brace; None if a scan would leave the text.
  function Tokens(t: string, p: nat): Option<seq<Token>>
    decreases |t| - p
  {
    match NextWord(t, p)
    case OffEnd => None
    case NoWord => Some([])
    case Word(a, e) =>
      match Tokens(t, e) { case None => None case Some(ts) => Some([TokenOf(t, a, e)] + ts) }
  }

  // The room for a word: it is copied into a buffer of zeroes, and one stays.
  const WORD_SIZE: nat := 256

  // Every word from p on is shorter than size.
  predicate WordsFit(t: string, p: nat, size: nat)
    decreases |t| - p
  {
    var x := NextWord(t, p);
    x.Word? ==> x.end - x.start < size && WordsFit(t, x.end, size)
  }

  // ------------------------------------------------------------- lookup

  // The first place of a key among the words.
  function IndexOf(ts: seq<Token>, key: string): (i: nat)
    ensures i <= |ts| && (i < |ts| ==> ts[i].word == key)
    ensures forall j :: 0 <= j < i ==> ts[j].word != key
  {
    if ts == [] then 0 else if ts[0].word == key then 0 else 1 + IndexOf(ts[1..], key)
  }

  // The word after the key and '=', if that is what follows the key.
  function LookupWord(ts: seq<Token>, key: string): Option<string> {
    var i := IndexOf(ts, key);
    if i + 2 < |ts| && ts[i + 1].word == "=" then Some(ts[i + 2].word) else None
  }

  // The string after the key and '=', closed or not.
  function QuotedOf(ts: seq<Token>, key: string): Quoted {
    var i := IndexOf(ts, key);
    if i + 1 < |ts| && ts[i + 1].word == "=" then ts[i + 1].str else NoString
  }

  function LookupString(ts: seq<Token>, key: string): Option<string> {
    match QuotedOf(ts, key) case Text(s) => Some(s) case _ => None
  }

  // atoi: blanks, a sign, digits; whatever follows is ignored.
  predicate IsSpace(c: char) {
    c == ' ' || '\t' <= c <= '\r'
  }

  predicate IsDigit(c: char) {
    '0' <= c <= '9'
  }

  function Digits(s: string, acc: nat): nat {
    if s != "" && IsDigit(s[0]) then Digits(s[1..], 10 * acc + (s[0] as int - '0' as int)) else acc
  }

  function Atoi(s: string): int {
    if s == "" then 0
    else if IsSpace(s[0]) then Atoi(s[1..])
    else if s[0] == '-' then 0 - Digits(s[1..], 0)
    else if s[0] == '+' then Digits(s[1..], 0)
    else Digits(s, 0)
  }

  /** Text on which every lookup stays in the buffer: the words end in a closing
      brace, and every quoted string after '=' is closed. */
  predicate Safe(t: string) {
    Tokens(t, 0).Some? && forall x <- Tokens(t, 0).value :: !x.str.Unclosed?
  }

  /** What the two lookups find in a text that is all words. */
  function ValueOf(t: string, key: string): Option<int>
    requires Tokens(t, 0).Some?
  {
    match LookupWord(Tokens(t, 0).value, key) case None => None case Some(w) => Some(Atoi(w))
  }

  function StringOf(t: string, key: string): Option<string>
    requires Tokens(t, 0).Some?
  {
    LookupString(Tokens(t, 0).value, key)
  }

  // -------------------------------------------- lookup in any text at all

  /** The outcome of a scan: Lost when it would leave the text, or meets a word
      that does not fit the parser's buffer. */
  datatype Answer<+T> = There(value: T) | NotThere | Lost

  // The next word as the string functions see it, and where it ends.
  function WordAfter(t: string, p: nat): (x: Answer<(string, nat)>)
    ensures x.There? ==> p < x.value.1 <= |t|
  {
    match NextWord(t, p)
    case OffEnd => Lost
    case NoWord => NotThere
    case Word(a, e) => if e - a >= WORD_SIZE then Lost else There((CString(t[a..e]), e))
  }

  // The end of the first word from p on that equals the key.
  function Find(t: string, p: nat, key: string): (x: Answer<nat>)
    decreases |t| - p
  {
    match WordAfter(t, p)
    case Lost => Lost
    case NotThere => NotThere
    case There(x) => if x.0 == key then There(x.1) else Find(t, x.1, key)
  }

  // The end of the '=' that follows the key.
  function FindValue(t: string, key: string): Answer<nat> {
    match Find(t, 0, key)
    case Lost => Lost
    case NotThere => NotThere
    case There(p) =>
      match WordAfter(t, p)
      case Lost => Lost
      case NotThere => NotThere
      case There(x) => if x.0 == "=" then There(x.1) else NotThere
  }

  /** What GetValue and GetStringValue answer: they look at no more of the text
      than they need. */
  function ValueAnswer(t: string, key: string): Answer<int> {
    match FindValue(t, key)
    case Lost => Lost
    case NotThere => NotThere
    case There(p) =>
      match WordAfter(t, p) case Lost => Lost case NotThere => NotThere case There(x) => There(Atoi(x.0))
  }

  function StringAnswer(t: string, key: string): Answer<string> {
    match FindValue(t, key)
    case Lost => Lost
    case NotThere => NotThere
    case There(p) =>
      match StringAt(t, p) case Unclosed => Lost case NoString => NotThere case Text(s) => There(s)
  }
}
