/** Rewriting a question into a permissive full-text query: its significant words joined by OR. */
module TextSearch {
  import opened Collections

  predicate IsLetterOrDigit(c: char) {
    'a' <= c <= 'z' || 'A' <= c <= 'Z' || '0' <= c <= '9' || c == '_'
  }

  function LowerChar(c: char): char {
    if 'A' <= c <= 'Z' then c - 'A' + 'a' else c
  }

  /** Words hold ASCII characters only, so this is all of ToLower they can meet. */
  function Lower(w: string): (r: string)
    ensures |r| == |w| && forall i | 0 <= i < |w| :: r[i] == LowerChar(w[i])
  {
    seq(|w|, i requires 0 <= i < |w| => LowerChar(w[i]))
  }

  predicate IsStopword(w: string) {
    w in {
      "a", "an", "the", "is", "was", "were", "are",
      "be", "been", "being", "i", "me", "my", "we",
      "our", "you", "your", "they", "them", "their",
      "it", "its", "this", "that", "these", "those",
      "what", "when", "where", "why", "how", "who",
      "which", "do", "did", "does", "have", "had",
      "has", "having", "and", "or", "but", "if",
      "then", "else", "of", "to", "in", "on", "for",
      "with", "from", "by", "at", "as", "about",
      "into", "over", "out", "up", "down", "again",
      "anything", "something", "find", "tell", "show",
      "give", "ask", "any", "some", "all", "each",
      "every"
    }
  }

  predicate Significant(w: string) {
    |w| >= 3 && !IsStopword(w)
  }

  // ----- What the words of a question are -----

  function RunLength(s: string): (n: nat)
    ensures n <= |s| && (forall i | 0 <= i < n :: IsLetterOrDigit(s[i]))
    ensures n < |s| ==> !IsLetterOrDigit(s[n])
  {
    if s == "" || !IsLetterOrDigit(s[0]) then 0 else 1 + RunLength(s[1..])
  }

  /** The longest runs of letters, digits and underscores, from left to right. */
  function Words(s: string): seq<string>
    decreases |s|
  {
    if s == "" then []
    else
      var n := RunLength(s);
      if n == 0 then Words(s[1..]) else [s[..n]] + Words(s[n..])
  }

  function IfSignificant(w: string): seq<string> {
    if Significant(Lower(w)) then [Lower(w)] else []
  }

  /** The significant ones in lower case. */
  function Kept(words: seq<string>): seq<string> {
    if words == [] then []
    else IfSignificant(words[0]) + Kept(words[1..])
  }

  function Keywords(s: string): seq<string> {
    Kept(Words(s))
  }

  function Join(words: seq<string>): string {
    if words == [] then "" else if |words| == 1 then words[0] else Or(words[0], Join(words[1..]))
  }

  function Or(a: string, b: string): string {
    a + " OR " + b
  }

  function Rewritten(question: string): string {
    if Keywords(question) == [] then question else Join(Keywords(question))
  }

  // ----- Splitting at a separator -----

  predicate AllWord(s: string) {
    forall c | c in s :: IsLetterOrDigit(c)
  }

  lemma {:induction false} RunOfPrefix(a: string, b: string)
    requires AllWord(a) && (b == "" || !IsLetterOrDigit(b[0]))
    ensures RunLength(a + b) == |a|
  {
    if a != "" {
      assert (a + b)[1..] == a[1..] + b;
      RunOfPrefix(a[1..], b);
    }
  }

  /** One whole word, when something is there. */
  lemma OneWord(a: string)
    requires AllWord(a)
    ensures Words(a) == if a == "" then [] else [a]
  {
    RunOfPrefix(a, "");
    assert a + "" == a && a[|a|..] == "";
  }

  /** No word spans a separator. */
  lemma {:induction false} WordsSplit(a: string, c: char, b: string)
    requires !IsLetterOrDigit(c)
    ensures Words(a + [c] + b) == Words(a) + Words(b)
    decreases |a|
  {
    var s := a + [c] + b;
    if a == "" {
      assert s[1..] == b;
    } else {
      var n := RunLength(a);
      RunOfPrefix(a[..n], a[n..] + [c] + b);
      CutSum(a, c, b, n);
      if n == 0 {
        CutSum(a, c, b, 1);
        WordsSplit(a[1..], c, b);
      } else {
        WordsSplit(a[n..], c, b);
        Regroup([a[..n]], Words(a[n..]), Words(b));
      }
    }
  }

  lemma CutSum<T>(a: seq<T>, c: T, b: seq<T>, n: nat)
    requires n <= |a|
    ensures var s := a + [c] + b;
            s == a[..n] + (a[n..] + [c] + b) && s[..n] == a[..n] && s[n..] == a[n..] + [c] + b
  {
  }

  lemma {:induction false} KeptSplits(a: seq<string>, b: seq<string>)
    ensures Kept(a + b) == Kept(a) + Kept(b)
  {
    hide IfSignificant;
    if a == [] {
      assert a + b == b;
    } else {
      KeptSplits(a[1..], b);
      RestOfSum(a, b);
      Regroup(IfSignificant(a[0]), Kept(a[1..]), Kept(b));
    }
  }

  /** Nor does a keyword. */
  lemma KeywordsSplit(a: string, c: char, b: string)
    requires !IsLetterOrDigit(c)
    ensures Keywords(a + [c] + b) == Keywords(a) + Keywords(b)
  {
    WordsSplit(a, c, b);
    KeptSplits(Words(a), Words(b));
  }

  lemma KeywordsOfWord(w: string)
    requires AllWord(w)
    ensures Keywords(w) == if w != "" && Significant(Lower(w)) then [Lower(w)] else []
  {
    OneWord(w);
    if w != "" {
      assert Kept([w]) == IfSignificant(w) + Kept([]);
    }
  }

  // ----- One pass over the question -----

  /** Ends the current word. */
  function Flush(cur: string, keywords: seq<string>): seq<string> {
    if cur != "" && Significant(Lower(cur)) then keywords + [Lower(cur)] else keywords
  }

  /** Before position i: `cur` is the word being read, since a separator or the start, and `keywords`
      are those of what precedes it. */
  ghost predicate Scanned(s: string, i: nat, cur: string, keywords: seq<string>) {
    && |cur| <= i <= |s|
    && cur == s[i - |cur|..i] && AllWord(cur)
    && (i > |cur| ==> !IsLetterOrDigit(s[i - |cur| - 1]))
    && keywords == Keywords(s[..i - |cur|])
  }

  lemma ScanNothing(s: string)
    ensures Scanned(s, 0, "", [])
  {
    assert s[..0] == "";
  }

  lemma ScanWord(s: string, i: nat, cur: string, keywords: seq<string>)
    requires Scanned(s, i, cur, keywords) && i < |s| && IsLetterOrDigit(s[i])
    ensures Scanned(s, i + 1, cur + [s[i]], keywords)
  {
    hide Keywords, IsLetterOrDigit;
    assert i + 1 - |cur + [s[i]]| == i - |cur|;
  }

  lemma FlushAdds(s: string, i: nat, cur: string, keywords: seq<string>)
    requires Scanned(s, i, cur, keywords)
    ensures Flush(cur, keywords) == Keywords(s[..i])
  {
    hide Significant, Words, Kept, IsLetterOrDigit, Lower;
    var n := i - |cur|;
    KeywordsOfWord(cur);
    if n == 0 {
      assert s[..0] == "" && s[..i] == cur;
      KeywordsOfWord("");
    } else {
      KeywordsSplit(s[..n - 1], s[n - 1], cur);
      KeywordsSplit(s[..n - 1], s[n - 1], "");
      KeywordsOfWord("");
      assert s[..n] == s[..n - 1] + [s[n - 1]] + "" && s[..i] == s[..n - 1] + [s[n - 1]] + cur;
    }
  }

  lemma ScanBreak(s: string, i: nat, cur: string, keywords: seq<string>)
    requires Scanned(s, i, cur, keywords) && i < |s| && !IsLetterOrDigit(s[i])
    ensures Scanned(s, i + 1, "", Flush(cur, keywords))
  {
    hide Keywords, IsLetterOrDigit, Flush;
    FlushAdds(s, i, cur, keywords);
    KeywordsOfWord("");
    KeywordsSplit(s[..i], s[i], "");
    OneCharacterMore(s, i);
  }

  lemma OneCharacterMore(s: string, i: nat)
    requires i < |s|
    ensures s[..i + 1] == s[..i] + [s[i]] + ""
  {
  }

  lemma ScanAll(s: string, cur: string, keywords: seq<string>)
    requires Scanned(s, |s|, cur, keywords)
    ensures Flush(cur, keywords) == Keywords(s)
  {
    FlushAdds(s, |s|, cur, keywords);
    assert s[..|s|] == s;
  }

  method QuestionToFTS(question: string) returns (query: string)
    ensures query == Rewritten(question)
  {
    hide Scanned, Flush, Keywords, Join;
    var keywords: seq<string> := [];
    var cur := "";
    ScanNothing(question);
    for i := 0 to |question|
      invariant Scanned(question, i, cur, keywords)
    {
      var r := question[i];
      if ('a' <= r <= 'z') || ('A' <= r <= 'Z') || ('0' <= r <= '9') || r == '_' {
        ScanWord(question, i, cur, keywords);
        cur := cur + [r];
      } else {
        ScanBreak(question, i, cur, keywords);
        keywords := Flush(cur, keywords);
        cur := "";
      }
    }
    ScanAll(question, cur, keywords);
    keywords := Flush(cur, keywords);
    if |keywords| == 0 {
      return question;
    }
    query := Join(keywords);
  }

  // ----- Reading the query back -----

  /** A keyword: all lower case, at least three characters, not a stop word, no separator in it. */
  predicate IsKeyword(w: string) {
    Significant(w) && AllWord(w) && Lower(w) == w
  }

  lemma LowerStays(w: string)
    requires AllWord(w)
    ensures AllWord(Lower(w)) && Lower(Lower(w)) == Lower(w)
  {
  }

  lemma {:induction false} WordsAreWords(s: string)
    ensures forall w | w in Words(s) :: AllWord(w) && w != ""
    decreases |s|
  {
    if s != "" {
      var n := RunLength(s);
      WordsAreWords(s[if n == 0 then 1 else n..]);
    }
  }

  lemma {:induction false} KeptAreKeywords(words: seq<string>)
    requires forall w | w in words :: AllWord(w)
    ensures forall k | k in Kept(words) :: IsKeyword(k)
  {
    if words != [] {
      LowerStays(words[0]);
      KeptAreKeywords(words[1..]);
    }
  }

  lemma SurvivorsAreKeywords(question: string)
    ensures forall k | k in Keywords(question) :: IsKeyword(k)
  {
    WordsAreWords(question);
    KeptAreKeywords(Words(question));
  }

  /** A word survives exactly if it has three characters or more and is no stop word in lower case. */
  lemma {:induction false} WordSurvivesIff(words: seq<string>, w: string)
    requires w in words
    ensures Lower(w) in Kept(words) <==> |w| >= 3 && !IsStopword(Lower(w))
  {
    hide IsStopword;
    KeptAreSignificant(words);
    if w != words[0] {
      WordSurvivesIff(words[1..], w);
      if Lower(w) == Lower(words[0]) {
        assert |w| == |words[0]|;
      }
    }
  }

  lemma {:induction false} KeptAreSignificant(words: seq<string>)
    ensures forall k | k in Kept(words) :: Significant(k)
  {
    hide Significant;
    if words != [] {
      KeptAreSignificant(words[1..]);
    }
  }

  const LETTERS := "abcdefghijklmnopqrstuvwxyz"
  const CAPITALS := "ABCDEFGHIJKLMNOPQRSTUVWXYZ"
  const DIGITS := "0123456789"

  /** The characters of words are the 26 letters, large and small, the digits and the underscore. */
  lemma WordCharacters(c: char)
    ensures IsLetterOrDigit(c) <==> c in LETTERS || c in CAPITALS || c in DIGITS || c == '_'
  {
    hide LETTERS, CAPITALS, DIGITS;
    InAlphabet(c);
    InCapitals(c);
    InDigits(c);
  }

  lemma InAlphabet(c: char)
    ensures c in LETTERS <==> 'a' <= c <= 'z'
  {
    assert forall i | 0 <= i < 26 :: LETTERS[i] == (97 + i) as char;
    if 'a' <= c <= 'z' {
      assert LETTERS[c as int - 97] == c;
    }
  }

  lemma InCapitals(c: char)
    ensures c in CAPITALS <==> 'A' <= c <= 'Z'
  {
    assert forall i | 0 <= i < 26 :: CAPITALS[i] == (65 + i) as char;
    if 'A' <= c <= 'Z' {
      assert CAPITALS[c as int - 65] == c;
    }
  }

  lemma InDigits(c: char)
    ensures c in DIGITS <==> '0' <= c <= '9'
  {
    assert forall i | 0 <= i < 10 :: DIGITS[i] == (48 + i) as char;
    if '0' <= c <= '9' {
      assert DIGITS[c as int - 48] == c;
    }
  }

  lemma LowerCase(i: nat)
    requires i < 26
    ensures LowerChar(CAPITALS[i]) == LETTERS[i] == LowerChar(LETTERS[i])
  {
  }

  /** The query is the keywords with " OR " between them. */
  lemma {:induction false} JoinOfSum(a: seq<string>, b: seq<string>)
    requires a != [] && b != []
    ensures Join(a + b) == Join(a) + " OR " + Join(b)
    ensures |a| == 1 ==> Join(a) == a[0]
  {
    assert (a + b)[1..] == a[1..] + b;
    if |a| > 1 {
      JoinOfSum(a[1..], b);
      assert Join(a + b) == a[0] + " OR " + (Join(a[1..]) + " OR " + Join(b));
    }
  }

  lemma SignificantIsLong(w: string)
    requires IsKeyword(w)
    ensures w != ""
  {
  }

  /** "OR" between two keywords is too short to be one. */
  lemma OrIsNoKeyword()
    ensures Keywords("OR") == []
  {
    KeywordsOfWord("OR");
  }

  lemma FirstReadsBack(first: string, rest: string)
    requires IsKeyword(first)
    ensures Keywords(Or(first, rest)) == [first] + Keywords(rest)
  {
    hide Keywords, Significant, Lower, AllWord;
    var tail := "OR" + [' '] + rest;
    WholeKeyword(first);
    OrIsNoKeyword();
    KeywordsSplit(first, ' ', tail);
    KeywordsSplit("OR", ' ', rest);
    SpellOut(first, rest);
  }

  lemma SpellOut(first: string, rest: string)
    ensures first + " OR " + rest == first + [' '] + ("OR" + [' '] + rest)
  {
  }

  lemma {:induction false} JoinReadsBack(keywords: seq<string>)
    requires forall k | k in keywords :: IsKeyword(k)
    ensures Keywords(Join(keywords)) == keywords
  {
    if keywords != [] {
      hide Keywords, Or, IsKeyword;
      var first, rest := keywords[0], keywords[1..];
      JoinReadsBack(rest);
      if |keywords| == 1 {
        WholeKeyword(first);
      } else {
        FirstReadsBack(first, Join(rest));
      }
    }
  }

  lemma WholeKeyword(w: string)
    requires IsKeyword(w)
    ensures Keywords(w) == [w]
  {
    KeywordsOfWord(w);
    SignificantIsLong(w);
  }

  /** Re-tokenizing the query gives back exactly the keywords of the question. */
  lemma QueryReadsBack(question: string)
    requires Keywords(question) != []
    ensures Keywords(Rewritten(question)) == Keywords(question)
  {
    SurvivorsAreKeywords(question);
    JoinReadsBack(Keywords(question));
  }

  /** Rewriting a second time changes nothing, whatever the question. */
  lemma RewritingIsIdempotent(question: string)
    ensures Rewritten(Rewritten(question)) == Rewritten(question)
  {
    if Keywords(question) != [] {
      QueryReadsBack(question);
    }
  }

  lemma {:induction false} RunOfLower(s: string)
    ensures RunLength(Lower(s)) == RunLength(s)
  {
    if s != "" {
      assert Lower(s)[1..] == Lower(s[1..]);
      RunOfLower(s[1..]);
    }
  }

  lemma LowerSlices(s: string, n: nat)
    requires n <= |s|
    ensures Lower(s)[..n] == Lower(s[..n]) && Lower(s)[n..] == Lower(s[n..])
  {
  }

  lemma {:induction false} WordsOfLower(s: string)
    ensures |Words(Lower(s))| == |Words(s)|
    ensures forall i | 0 <= i < |Words(s)| :: Words(Lower(s))[i] == Lower(Words(s)[i])
    decreases |s|
  {
    hide RunLength, IsLetterOrDigit, LowerChar;
    if s != "" {
      RunOfLower(s);
      var n := RunLength(s);
      var m := if n == 0 then 1 else n;
      LowerSlices(s, m);
      WordsOfLower(s[m..]);
    }
  }

  lemma {:induction false} KeptOfLower(words: seq<string>, lowered: seq<string>)
    requires |words| == |lowered| && forall i | 0 <= i < |words| :: lowered[i] == Lower(words[i])
    ensures Kept(lowered) == Kept(words)
  {
    if words != [] {
      assert Lower(lowered[0]) == Lower(words[0]);
      KeptOfLower(words[1..], lowered[1..]);
    }
  }

  /** Case does not matter to the keywords. */
  lemma CaseIsIgnored(a: string, b: string)
    requires Lower(a) == Lower(b)
    ensures Keywords(a) == Keywords(b)
  {
    WordsOfLower(a);
    WordsOfLower(b);
    KeptOfLower(Words(a), Words(Lower(a)));
    KeptOfLower(Words(b), Words(Lower(b)));
  }
}
