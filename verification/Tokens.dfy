// When a line of space-separated words contains a token such as " CAP ".
module Tokens {
  import opened Text

  /** A line as its words. */
  datatype Words = Last(word: string) | More(word: string, rest: Words)

  /** The words joined by single spaces. */
  function Spaced(ws: Words): string {
    match ws
    case Last(word) => word
    case More(word, rest) => word + (" " + Spaced(rest))
  }

  predicate Plain(word: string) {
    forall i | 0 <= i < |word| :: word[i] != ' '
  }

  predicate AllPlain(ws: Words) {
    Plain(ws.word) && (ws.More? ==> AllPlain(ws.rest))
  }

  /** `w` is a word with a word on either side. */
  predicate Inside(ws: Words, w: string) {
    ws.More? && ws.rest.More? && (ws.rest.word == w || Inside(ws.rest, w))
  }

  /** A token begins with a space, so it cannot begin within a word. */
  lemma {:induction false} PastWord(word: string, rest: string, token: string)
    requires Plain(word) && token != "" && token[0] == ' '
    ensures Contains(word + rest, token) == Contains(rest, token)
  {
    if word == "" {
      assert word + rest == rest;
    } else {
      assert (word + rest)[0] == word[0];
      assert (word + rest)[1..] == word[1..] + rest;
      PastWord(word[1..], rest, token);
    }
  }

  lemma {:induction false} WordAtFront(w: string, word: string, tail: string)
    requires Plain(w) && Plain(word) && (tail == "" || tail[0] == ' ')
    ensures w + " " <= word + tail <==> tail != "" && w == word
  {
    var line := word + tail;
    if w != "" && word != "" {
      assert (w + " ")[1..] == w[1..] + " " && line[1..] == word[1..] + tail;
      assert (w + " ")[0] == w[0] && line[0] == word[0];
      assert w == word <==> w[0] == word[0] && w[1..] == word[1..];
      assert w + " " <= line <==> w[0] == line[0] && (w + " ")[1..] <= line[1..];
      WordAtFront(w[1..], word[1..], tail);
    } else {
      assert (w + " ")[0] == if w == "" then ' ' else w[0];
      assert line != "" ==> line[0] == if word == "" then tail[0] else word[0];
    }
  }

  /** ` w ` occurs in the line exactly when `w` is one of its inner words. */
  lemma {:induction false} TokenIsWord(ws: Words, w: string)
    requires AllPlain(ws) && Plain(w)
    ensures Contains(Spaced(ws), " " + w + " ") <==> Inside(ws, w)
  {
    var token := " " + w + " ";
    if ws.Last? {
      PastWord(ws.word, "", token);
      assert ws.word + "" == ws.word;
    } else {
      var rest := Spaced(ws.rest);
      PastWord(ws.word, " " + rest, token);
      assert (" " + rest)[1..] == rest && token[1..] == w + " ";
      assert token <= " " + rest <==> w + " " <= rest;
      if ws.rest.Last? {
        assert ws.rest.word + "" == ws.rest.word;
        WordAtFront(w, ws.rest.word, "");
      } else {
        WordAtFront(w, ws.rest.word, " " + Spaced(ws.rest.rest));
      }
      TokenIsWord(ws.rest, w);
    }
  }
}
