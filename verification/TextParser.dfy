/** The parser itself: scanning loops that move _bufPointer_, proved against the
    stream of words. */
module TextParser {
  import opened Wrappers
  import opened TextSpec

  class TextParser {
    const buffer: string
    var bufPointer: nat

    constructor (text: string)
      ensures buffer == text
    {
      buffer := text;
      bufPointer := 0;
    }

    method SkipNoneCommand() returns (ok: bool)
      requires SkipFrom(buffer, bufPointer) != Overrun
      modifies this`bufPointer
      ensures SkipFrom(buffer, old(bufPointer)) == if ok then At(bufPointer) else Stop(bufPointer)
    {
      while true
        invariant SkipFrom(buffer, bufPointer) == SkipFrom(buffer, old(bufPointer))
        decreases |buffer| - bufPointer
      {
        assert LexemeAt(buffer, bufPointer) != Outside;
        if buffer[bufPointer] == '}' { return false; }
        if IsBlank(buffer[bufPointer]) {
          bufPointer := bufPointer + 1;
        } else if buffer[bufPointer] == '/' && buffer[bufPointer + 1] == '*' {
          SkipComment();
        } else if buffer[bufPointer] == '/' && buffer[bufPointer + 1] == '/' {
          SkipLine();
        } else {
          break;
        }
      }
      return true;
    }

    // The loop over a comment.
    method SkipComment()
      requires 0 < bufPointer && CommentEnd(buffer, bufPointer).Some?
      modifies this`bufPointer
      ensures bufPointer == CommentEnd(buffer, old(bufPointer)).value + 1 && bufPointer > old(bufPointer)
    {
      while buffer[bufPointer - 1] != '*' || buffer[bufPointer] != '/'
        invariant old(bufPointer) <= bufPointer < |buffer|
        invariant CommentEnd(buffer, bufPointer) == CommentEnd(buffer, old(bufPointer))
        decreases |buffer| - bufPointer
      {
        bufPointer := bufPointer + 1;
      }
      bufPointer := bufPointer + 1;
    }

    // The loop over a line comment: it stops at the carriage return.
    method SkipLine()
      requires LineEnd(buffer, bufPointer).Some?
      modifies this`bufPointer
      ensures bufPointer == LineEnd(buffer, old(bufPointer)).value
    {
      while buffer[bufPointer] != '\r'
        invariant old(bufPointer) <= bufPointer < |buffer|
        invariant LineEnd(buffer, bufPointer) == LineEnd(buffer, old(bufPointer))
        decreases |buffer| - bufPointer
      {
        bufPointer := bufPointer + 1;
      }
    }

    method GetNextWord() returns (ok: bool, start: nat, length: nat)
      requires NextWord(buffer, bufPointer) != OffEnd
      modifies this`bufPointer
      ensures NextWord(buffer, old(bufPointer)) == if ok then Word(start, bufPointer) else NoWord
      ensures ok ==> start + length == bufPointer
    {
      start, length := 0, 0;
      ok := SkipNoneCommand();
      if !ok { return; }
      length := 0;
      start := bufPointer;
      if buffer[bufPointer] == '=' {
        length := 1;
        bufPointer := bufPointer + 1;
        return;
      }
      while true
        invariant start <= bufPointer < |buffer| && length == bufPointer - start
        invariant WordEnd(buffer, bufPointer) == WordEnd(buffer, start)
        decreases |buffer| - bufPointer
      {
        if EndsWord(buffer[bufPointer]) {
          break;
        }
        bufPointer := bufPointer + 1;
        length := length + 1;
      }
    }

    method GetStringWord() returns (ok: bool, start: nat, length: nat)
      requires StringAt(buffer, bufPointer) != Unclosed
      modifies this`bufPointer
      ensures start + length <= |buffer|
      ensures ok ==> start >= 1 && SkipFrom(buffer, old(bufPointer)) == At(start - 1) && bufPointer == start + length + 1
      ensures !ok ==> SkipFrom(buffer, old(bufPointer)) in {Stop(bufPointer), At(bufPointer)}
      ensures StringAt(buffer, old(bufPointer)) == if ok then Text(buffer[start..start + length]) else NoString
    {
      start, length := 0, 0;
      ok := SkipNoneCommand();
      if !ok { return; }
      if buffer[bufPointer] != '"' { return false, 0, 0; }
      bufPointer := bufPointer + 1;
      length := 0;
      start := bufPointer;
      while true
        invariant start <= bufPointer < |buffer| && length == bufPointer - start
        invariant QuoteEnd(buffer, bufPointer) == QuoteEnd(buffer, start)
        decreases |buffer| - bufPointer
      {
        if buffer[bufPointer] == '"' {
          bufPointer := bufPointer + 1;
          break;
        }
        bufPointer := bufPointer + 1;
        length := length + 1;
      }
    }

    // The word as chWord holds it: what strcmp and atoi see.
    method CopyWord(start: nat, length: nat) returns (word: string)
      requires start + length <= |buffer| && length < WORD_SIZE
      ensures word == CString(buffer[start..start + length])
    {
      word := CString(buffer[start..start + length]);
    }

    // GetNextWord and CopyWord.
    method NextCString() returns (more: bool, word: string)
      requires WordAfter(buffer, bufPointer) != Lost
      modifies this`bufPointer
      ensures WordAfter(buffer, old(bufPointer)) == if more then There((word, bufPointer)) else NotThere
    {
      hide CString, SkipFrom;
      var start, length;
      more, start, length := GetNextWord();
      word := "";
      if more {
        word := CopyWord(start, length);
      }
    }

    // The search both lookups begin with: past the first word equal to the key.
    method FindKey(key: string) returns (found: bool)
      requires Find(buffer, 0, key) != Lost
      modifies this`bufPointer
      ensures Find(buffer, 0, key) == if found then There(bufPointer) else NotThere
    {
      hide WordAfter;
      bufPointer := 0;
      while true
        invariant Find(buffer, bufPointer, key) == Find(buffer, 0, key)
        decreases |buffer| - bufPointer
      {
        var more, word := NextCString();
        if !more {
          return false;
        }
        if key == word {
          return true;
        }
      }
      return false;
    }

    /** GetValue finds the word after the first occurrence of the key and '=', and
        reads it as a number; otherwise it fails. */
    method GetValue(key: string) returns (value: Option<int>)
      requires ValueAnswer(buffer, key) != Lost
      modifies this`bufPointer
      ensures ValueAnswer(buffer, key) == match value { case None => NotThere case Some(n) => There(n) }
    {
      hide WordAfter, Find, Atoi;
      var found := FindKey(key);
      if !found { return None; }
      var more, word := NextCString();
      if more {
        if word == "=" {
          more, word := NextCString();
          if more {
            return Some(Atoi(word));
          }
          return None;
        }
      }
      return None;
    }

    /** GetStringValue finds the string after the first occurrence of the key and
        '='; valueSize is the room the caller gives it. */
    method GetStringValue(key: string, valueSize: nat) returns (value: Option<string>)
      requires StringAnswer(buffer, key) != Lost
      requires StringAnswer(buffer, key).There? ==> |StringAnswer(buffer, key).value| <= valueSize
      modifies this`bufPointer
      ensures StringAnswer(buffer, key) == match value { case None => NotThere case Some(s) => There(s) }
    {
      hide WordAfter, Find;
      var found := FindKey(key);
      if !found { return None; }
      var more, word := NextCString();
      if more {
        if word == "=" {
          var ok, start, length := GetStringWord();
          if ok {
            return Some(buffer[start..start + length]);
          }
          return None;
        }
      }
      return None;
    }
  }

  // ------------------------------------------------ search among all words

  // The words still to come are ts, and each fits the parser's buffer.
  predicate Ahead(t: string, p: nat, ts: seq<Token>) {
    Tokens(t, p) == Some(ts) && WordsFit(t, p, WORD_SIZE)
  }

  lemma NextOf(t: string, p: nat, ts: seq<Token>)
    requires Ahead(t, p, ts)
    ensures ts == [] ==> WordAfter(t, p) == NotThere
    ensures ts != [] ==>
              && WordAfter(t, p).There? && WordAfter(t, p).value.0 == ts[0].word
              && Ahead(t, WordAfter(t, p).value.1, ts[1..])
              && (ts[0].word == "=" ==> ts[0].str == StringAt(t, WordAfter(t, p).value.1))
  {
    hide CString, SkipFrom, StringAt;
    var x := NextWord(t, p);
    if x.Word? {
      var rest := Tokens(t, x.end).value;
      assert ([TokenOf(t, x.start, x.end)] + rest)[1..] == rest;
    }
  }

  // The search stands where the words up to the first occurrence end.
  lemma {:induction false} FindIndex(t: string, p: nat, ts: seq<Token>, key: string)
    requires Ahead(t, p, ts)
    ensures IndexOf(ts, key) == |ts| ==> Find(t, p, key) == NotThere
    ensures IndexOf(ts, key) < |ts| ==>
              Find(t, p, key).There? && Ahead(t, Find(t, p, key).value, ts[IndexOf(ts, key) + 1..])
    decreases |t| - p
  {
    hide Ahead, WordAfter;
    NextOf(t, p, ts);
    if ts != [] && ts[0].word != key {
      FindIndex(t, WordAfter(t, p).value.1, ts[1..], key);
      var i := IndexOf(ts[1..], key);
      if i < |ts[1..]| {
        assert ts[1..][i + 1..] == ts[i + 2..];
      }
    }
  }

  /** The parser refines tokenize-then-search: in a text that is all words the
      lookups are lookups in the list of the words. */
  lemma LookupsSearch(t: string, key: string)
    requires Tokens(t, 0).Some? && WordsFit(t, 0, WORD_SIZE)
    ensures ValueAnswer(t, key) == match ValueOf(t, key) { case None => NotThere case Some(n) => There(n) }
    ensures StringAnswer(t, key) == match QuotedOf(Tokens(t, 0).value, key) {
              case Unclosed => Lost case NoString => NotThere case Text(s) => There(s) }
  {
    var ts := Tokens(t, 0).value;
    var i := IndexOf(ts, key);
    assert Ahead(t, 0, ts);
    hide Ahead, Tokens, WordsFit, WordAfter, StringAt, Find, IndexOf, Atoi;
    FindIndex(t, 0, ts, key);
    if i < |ts| {
      var p := Find(t, 0, key).value;
      NextOf(t, p, ts[i + 1..]);
      if i + 1 < |ts| {
        assert ts[i + 1..][1..] == ts[i + 2..];
        NextOf(t, WordAfter(t, p).value.1, ts[i + 2..]);
      }
    }
  }
}
