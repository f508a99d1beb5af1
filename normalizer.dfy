/** The filter-and-join step of `clean_text` in app.py. The language model's tokenizer and
    its stop-word and punctuation classification are not modelled: the tokens arrive
    already classified. */
module Normalizer {
  import opened Text

  /** A token as the language model hands it over. */
  datatype Token = Token(text: string, isStop: bool, isPunct: bool)

  /** The comprehension's condition: neither a stop-word nor punctuation. */
  predicate Keeps(t: Token) {
    !t.isStop && !t.isPunct
  }

  /** The tokens the comprehension keeps, in their original order. */
  function KeptTokens(tokens: seq<Token>): (kept: seq<Token>)
    ensures |kept| <= |tokens|
    ensures forall t :: t in kept ==> Keeps(t) && t in tokens
    ensures forall t :: t in tokens && Keeps(t) ==> t in kept
  {
    if tokens == [] then []
    else (if Keeps(tokens[0]) then [tokens[0]] else []) + KeptTokens(tokens[1..])
  }

  /** The texts of a sequence of tokens. The ensures spell the comprehension out index by
      index; they are there for the proofs about `CleanText`, not as a property of their own. */
  function Texts(tokens: seq<Token>): (words: seq<string>)
    ensures |words| == |tokens|
    ensures forall i :: 0 <= i < |tokens| ==> words[i] == tokens[i].text
  {
    seq(|tokens|, i requires 0 <= i < |tokens| => tokens[i].text)
  }

  /** `" ".join(words)`: the words are separated by exactly one space each, so the joined
      text is as long as the words together plus one space between each pair of neighbours. */
  function Join(words: seq<string>): (r: string)
    ensures words == [] ==> r == ""
    ensures words != [] ==> |r| == TotalLength(words) + |words| - 1
  {
    if words == [] then ""
    else if |words| == 1 then assert words[..0] == []; words[0]
    else Join(words[..|words| - 1]) + " " + words[|words| - 1]
  }

  /** `clean_text` over an already tokenized and classified text: the text of every token
      that is neither a stop-word nor punctuation appears in the result. */
  function CleanText(tokens: seq<Token>): (r: string)
    ensures forall t :: t in tokens && Keeps(t) ==> IsSubstring(t.text, r)
  {
    var kept := KeptTokens(tokens);
    JoinContainsWords(Texts(kept));
    assert forall t :: t in kept ==> exists i :: 0 <= i < |kept| && Texts(kept)[i] == t.text;
    Join(Texts(kept))
  }

  /** Filtering is done token by token, so relative order is kept: filtering two runs of
      tokens gives the kept tokens of the first followed by those of the second. */
  lemma {:induction false} KeptTokensAppend(a: seq<Token>, b: seq<Token>)
    ensures KeptTokens(a + b) == KeptTokens(a) + KeptTokens(b)
  {
    if a != [] {
      assert (a + b)[1..] == a[1..] + b;
      KeptTokensAppend(a[1..], b);
    } else {
      assert a + b == b;
    }
  }

  /** Joining two non-empty runs of words puts a single space between the joined runs. */
  lemma {:induction false} JoinAppend(a: seq<string>, b: seq<string>)
    requires a != [] && b != []
    ensures Join(a + b) == Join(a) + " " + Join(b)
    decreases |b|
  {
    var n := |b| - 1;
    if n == 0 {
      assert (a + b)[..|a + b| - 1] == a;
    } else {
      assert (a + b)[..|a + b| - 1] == a + b[..n];
      JoinAppend(a, b[..n]);
    }
  }

  /** Every word is a substring of the joined text. */
  lemma {:induction false} JoinContainsWords(words: seq<string>)
    ensures forall i :: 0 <= i < |words| ==> IsSubstring(words[i], Join(words))
  {
    if |words| > 1 {
      var n := |words| - 1;
      var init := words[..n];
      JoinContainsWords(init);
      forall i | 0 <= i < |words| ensures IsSubstring(words[i], Join(words)) {
        if i < n {
          assert init[i] == words[i];
          SubstringOfAppend(words[i], Join(init), "", " " + words[n]);
          assert "" + Join(init) + (" " + words[n]) == Join(words);
        } else {
          assert IsPrefix(words[n], words[n]);
          SubstringOfAppend(words[n], words[n], Join(init) + " ", "");
          assert Join(init) + " " + words[n] + "" == Join(words);
        }
      }
    } else if |words| == 1 {
      assert IsPrefix(words[0], words[0]);
    }
  }

  /** Cleaning two runs of tokens, each keeping some token, gives the two cleaned runs
      separated by a single space. */
  lemma CleanTextAppend(a: seq<Token>, b: seq<Token>)
    requires KeptTokens(a) != [] && KeptTokens(b) != []
    ensures CleanText(a + b) == CleanText(a) + " " + CleanText(b)
  {
    var ka, kb := KeptTokens(a), KeptTokens(b);
    KeptTokensAppend(a, b);
    TextsAppend(ka, kb);
    JoinAppend(Texts(ka), Texts(kb));
  }

  lemma TextsAppend(a: seq<Token>, b: seq<Token>)
    ensures Texts(a + b) == Texts(a) + Texts(b)
  {
  }
}
