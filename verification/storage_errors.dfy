/** The text classification salida applies to an error raised by the store (a trigger or a
    constraint) when its transaction fails: the text is lowered and searched for keywords. */
module StorageErrors {

  /** Shown when the store's text mentions "inactivo". */
  const INACTIVE_EXIT_MESSAGE: string := "No puedes registrar salida de un producto inactivo."
  /** Shown when the store's text mentions "sin stock", "suficiente" or "stock". */
  const INSUFFICIENT_STOCK_MESSAGE: string := "No hay suficiente inventario para la salida solicitada."

  /** str.lower() restricted to the ASCII letters. */
  function LowerChar(c: char): char
  {
    if 'A' <= c <= 'Z' then (c as int + 32) as char else c
  }

  function Lower(s: string): string
  {
    seq(|s|, i requires 0 <= i < |s| => LowerChar(s[i]))
  }

  /** `word` occurs in `text` starting at position i. */
  predicate OccursAt(text: string, word: string, i: nat)
  {
    i + |word| <= |text| && text[i..i + |word|] == word
  }

  /** Python's `word in text` on strings. */
  predicate Contains(text: string, word: string)
  {
    exists i: nat :: i <= |text| && OccursAt(text, word, i)
  }

  /** `word` (lower-case) matches `raw` at position i when case is ignored, letter by letter. */
  ghost predicate MatchesIgnoringCaseAt(raw: string, word: string, i: nat)
  {
    i + |word| <= |raw| && forall k :: 0 <= k < |word| ==> LowerChar(raw[i + k]) == word[k]
  }

  /** `raw` mentions `word` somewhere, ignoring case. */
  ghost predicate MentionsIgnoringCase(raw: string, word: string)
  {
    exists i: nat :: MatchesIgnoringCaseAt(raw, word, i)
  }

  lemma OccursInLowerAt(raw: string, word: string, i: nat)
    ensures OccursAt(Lower(raw), word, i) <==> MatchesIgnoringCaseAt(raw, word, i)
  {
    var low := Lower(raw);
    if i + |word| <= |raw| {
      var window := low[i..i + |word|];
      assert forall k :: 0 <= k < |word| ==> window[k] == LowerChar(raw[i + k]);
      if MatchesIgnoringCaseAt(raw, word, i) {
        assert window == word;
      }
    }
  }

  /** Searching the lowered text is searching the raw text case-insensitively. */
  lemma ContainsInLower(raw: string, word: string)
    ensures Contains(Lower(raw), word) <==> MentionsIgnoringCase(raw, word)
  {
    if Contains(Lower(raw), word) {
      var i: nat :| i <= |Lower(raw)| && OccursAt(Lower(raw), word, i);
      OccursInLowerAt(raw, word, i);
    }
    if MentionsIgnoringCase(raw, word) {
      var i: nat :| MatchesIgnoringCaseAt(raw, word, i);
      OccursInLowerAt(raw, word, i);
    }
  }

  /** The "sin stock" test is subsumed by the "stock" test that follows it. */
  lemma SinStockMentionsStock(text: string)
    ensures Contains(text, "sin stock") ==> Contains(text, "stock")
  {
    if Contains(text, "sin stock") {
      var i: nat :| i <= |text| && OccursAt(text, "sin stock", i);
      assert text[i + 4..i + 9] == text[i..i + 9][4..];
      assert "sin stock"[4..] == "stock";
      assert OccursAt(text, "stock", i + 4);
    }
  }

  /** The message salida shows for a store error with text `raw`: "inactivo" wins over the
      stock keywords, and a text that mentions none of them is shown as it is. */
  function Classify(raw: string): (msg: string)
    ensures MentionsIgnoringCase(raw, "inactivo") ==> msg == INACTIVE_EXIT_MESSAGE
    ensures !MentionsIgnoringCase(raw, "inactivo")
            && (MentionsIgnoringCase(raw, "suficiente") || MentionsIgnoringCase(raw, "stock"))
            ==> msg == INSUFFICIENT_STOCK_MESSAGE
    ensures !MentionsIgnoringCase(raw, "inactivo") && !MentionsIgnoringCase(raw, "suficiente")
            && !MentionsIgnoringCase(raw, "stock")
            ==> msg == raw
  {
    ContainsInLower(raw, "inactivo");
    ContainsInLower(raw, "suficiente");
    ContainsInLower(raw, "stock");
    SinStockMentionsStock(Lower(raw));
    var low := Lower(raw);
    if Contains(low, "inactivo") then INACTIVE_EXIT_MESSAGE
    else if Contains(low, "sin stock") || Contains(low, "suficiente") || Contains(low, "stock") then
      INSUFFICIENT_STOCK_MESSAGE
    else raw
  }
}
