/**
 * The keyword language heuristic. The same rule is implemented twice, once in the
 * audio utilities and once inside the voice-assistant component; the two copies differ
 * only in their word lists. The component's lists are the utilities' lists without
 * their last two words.
 */
module Language {
  import opened Text

  /** The tag the heuristic returns: 'tr', 'en' or 'auto'. */
  datatype Tag = Tr | En | Auto

  function TagName(t: Tag): string {
    match t
    case Tr => "tr"
    case En => "en"
    case Auto => "auto"
  }

  /** Turkish keywords of the audio utilities (25 words). */
  const UtilsTurkish: seq<string> := [
    "merhaba", "nas\U{131}l", "nerede", "ne", "kim", "hangi", "bu", "\U{15F}u", "o",
    "ben", "sen", "biz", "siz", "onlar", "evet", "hay\U{131}r", "te\U{15F}ekk\U{FC}r",
    "l\U{FC}tfen", "g\U{FC}zel", "iyi", "k\U{F6}t\U{FC}", "b\U{FC}y\U{FC}k", "k\U{FC}\U{E7}\U{FC}k", "var", "yok"
  ]

  /** English keywords of the audio utilities (26 words). */
  const UtilsEnglish: seq<string> := [
    "hello", "how", "where", "what", "who", "which", "this", "that",
    "i", "you", "we", "they", "yes", "no", "thank", "please", "good",
    "bad", "big", "small", "can", "will", "would", "could", "is", "are"
  ]

  /** Turkish keywords of the component (23 words). */
  const ComponentTurkish: seq<string> := UtilsTurkish[..23]

  /** English keywords of the component (24 words). */
  const ComponentEnglish: seq<string> := UtilsEnglish[..24]

  /** How many words of `words` occur in `text`, counted once per list entry. */
  function CountFound(text: string, words: seq<string>): (n: nat)
    ensures n <= |words|
  {
    if words == [] then 0
    else
      CountFound(text, words[..|words| - 1]) + (if Contains(text, words[|words| - 1]) then 1 else 0)
  }

  /** The three-way decision on the two counts. */
  function Verdict(turkish: nat, english: nat): Tag {
    if turkish > english then Tr
    else if english > turkish then En
    else Auto
  }

  /** What `detectLanguage(text)` returns for the given word lists. */
  function Classify(text: string, turkish: seq<string>, english: seq<string>): Tag {
    var lower := ToLower(text);
    Verdict(CountFound(lower, turkish), CountFound(lower, english))
  }

  /**
   * `detectLanguage`: lower-case the text, count the Turkish and the English keywords
   * it contains in two passes, and compare the counts. The three clauses below are the
   * whole decision rule in both directions; a tie, including 0-0, gives 'auto'.
   */
  method Detect(text: string, turkish: seq<string>, english: seq<string>) returns (tag: Tag)
    ensures tag == Tr <==> CountFound(ToLower(text), turkish) > CountFound(ToLower(text), english)
    ensures tag == En <==> CountFound(ToLower(text), english) > CountFound(ToLower(text), turkish)
    ensures tag == Auto <==> CountFound(ToLower(text), turkish) == CountFound(ToLower(text), english)
    ensures tag == Classify(text, turkish, english)
  {
    var lowerText := ToLower(text);
    var turkishCount, englishCount := 0, 0;
    for i := 0 to |turkish|
      invariant turkishCount == CountFound(lowerText, turkish[..i])
    {
      assert turkish[..i + 1][..i] == turkish[..i];
      if Contains(lowerText, turkish[i]) {
        turkishCount := turkishCount + 1;
      }
    }
    for i := 0 to |english|
      invariant englishCount == CountFound(lowerText, english[..i])
    {
      assert english[..i + 1][..i] == english[..i];
      if Contains(lowerText, english[i]) {
        englishCount := englishCount + 1;
      }
    }
    assert turkish[..|turkish|] == turkish && english[..|english|] == english;
    if turkishCount > englishCount {
      return Tr;
    }
    if englishCount > turkishCount {
      return En;
    }
    return Auto;
  }

  ghost predicate NoDuplicates(words: seq<string>) {
    forall i, j :: 0 <= i < j < |words| ==> words[i] != words[j]
  }

  /** The list words that occur in `text`. */
  ghost function FoundSet(text: string, words: seq<string>): set<string> {
    set w | w in words && Contains(text, w)
  }

  /** With a duplicate-free list, the count is the number of distinct list words found. */
  lemma {:induction false} CountIsDistinctMatches(text: string, words: seq<string>)
    requires NoDuplicates(words)
    ensures CountFound(text, words) == |FoundSet(text, words)|
  {
    if words != [] {
      var init, last := words[..|words| - 1], words[|words| - 1];
      assert NoDuplicates(init);
      CountIsDistinctMatches(text, init);
      assert last !in init by {
        forall i | 0 <= i < |init| ensures init[i] != last {
          assert init[i] == words[i];
        }
      }
      assert words == init + [last];
      if Contains(text, last) {
        assert FoundSet(text, words) == FoundSet(text, init) + {last};
      } else {
        assert FoundSet(text, words) == FoundSet(text, init);
      }
    }
  }

  /** Counting over a concatenation of lists adds the two counts. */
  lemma {:induction false} CountFoundAppend(text: string, a: seq<string>, b: seq<string>)
    ensures CountFound(text, a + b) == CountFound(text, a) + CountFound(text, b)
    decreases |b|
  {
    if b != [] {
      var b' := b[..|b| - 1];
      assert (a + b)[..|a + b| - 1] == a + b';
      var last := b[|b| - 1];
      assert (a + b)[|a + b| - 1] == last;
      CountFoundAppend(text, a, b');
      var extra := if Contains(text, last) then 1 else 0;
      assert CountFound(text, a + b) == CountFound(text, a + b') + extra;
      assert CountFound(text, b) == CountFound(text, b') + extra;
    } else {
      assert a + b == a;
    }
  }

  /** Words that do not occur in the text add nothing to the count. */
  lemma {:induction false} CountFoundAbsent(text: string, words: seq<string>)
    requires forall i :: 0 <= i < |words| ==> !Contains(text, words[i])
    ensures CountFound(text, words) == 0
  {
    if words != [] {
      CountFoundAbsent(text, words[..|words| - 1]);
    }
  }

  /** A word's length, first and last character: equal words have equal signatures. */
  function Signature(w: string): (int, char, char)
    requires w != []
  {
    (|w|, w[0], w[|w| - 1])
  }

  /** No English word of the utilities is listed twice: their signatures all differ. */
  lemma EnglishDuplicateFree()
    ensures NoDuplicates(UtilsEnglish)
  {
    forall i, j | 0 <= i < j < |UtilsEnglish| ensures UtilsEnglish[i] != UtilsEnglish[j] {
      assert Signature(UtilsEnglish[i]) != Signature(UtilsEnglish[j]);
    }
  }

  /** No Turkish word of the utilities is listed twice: their signatures all differ. */
  lemma TurkishDuplicateFree()
    ensures NoDuplicates(UtilsTurkish)
  {
    forall i, j | 0 <= i < j < |UtilsTurkish| ensures UtilsTurkish[i] != UtilsTurkish[j] {
      assert Signature(UtilsTurkish[i]) != Signature(UtilsTurkish[j]);
    }
  }

  /**
   * With the utilities' lists, which have no repeated word, each count is the number of
   * distinct list words found in the lower-cased text.
   */
  lemma CountsAreDistinctWords(text: string)
    ensures CountFound(ToLower(text), UtilsTurkish) == |FoundSet(ToLower(text), UtilsTurkish)|
    ensures CountFound(ToLower(text), UtilsEnglish) == |FoundSet(ToLower(text), UtilsEnglish)|
  {
    TurkishDuplicateFree();
    EnglishDuplicateFree();
    CountIsDistinctMatches(ToLower(text), UtilsTurkish);
    CountIsDistinctMatches(ToLower(text), UtilsEnglish);
  }

  /**
   * Each count is bounded by its list's length: at most 25 and 26 with the utilities'
   * lists, 23 and 24 with the component's.
   */
  lemma CountBounds(text: string)
    ensures CountFound(ToLower(text), UtilsTurkish) <= 25 && CountFound(ToLower(text), UtilsEnglish) <= 26
    ensures CountFound(ToLower(text), ComponentTurkish) <= 23 && CountFound(ToLower(text), ComponentEnglish) <= 24
  {
  }

  /**
   * The two copies of the heuristic agree on every text that contains none of the
   * four words only the utilities list: "var", "yok", "is" and "are".
   */
  lemma {:induction false} CopiesAgree(text: string)
    requires CountFound(ToLower(text), ["var", "yok", "is", "are"]) == 0
    ensures Classify(text, UtilsTurkish, UtilsEnglish) == Classify(text, ComponentTurkish, ComponentEnglish)
  {
    var lower := ToLower(text);
    assert ["var", "yok", "is", "are"] == ["var", "yok"] + ["is", "are"];
    CountFoundAppend(lower, ["var", "yok"], ["is", "are"]);
    assert UtilsTurkish == ComponentTurkish + ["var", "yok"];
    assert UtilsEnglish == ComponentEnglish + ["is", "are"];
    CountFoundAppend(lower, ComponentTurkish, ["var", "yok"]);
    CountFoundAppend(lower, ComponentEnglish, ["is", "are"]);
  }

  /** Why a word cannot occur in a text: one of its characters, or one of its adjacent pairs, never does. */
  datatype Absence = CharAt(k: nat) | PairAt(k: nat)

  predicate Shows(s: string, w: string, why: Absence) {
    match why
    case CharAt(k) => k < |w| && w[k] !in s
    case PairAt(k) => k + 1 < |w| && forall i :: 0 <= i < |s| - 1 ==> s[i] != w[k] || s[i + 1] != w[k + 1]
  }

  lemma AbsenceIsSound(s: string, w: string, why: Absence)
    requires Shows(s, w, why)
    ensures !Contains(s, w)
  {
    forall i | 0 <= i && i + |w| <= |s| ensures !OccursAt(s, w, i) {
      var k := why.k;
      assert s[i..i + |w|][k] == s[i + k];
      if why.PairAt? {
        assert s[i..i + |w|][k + 1] == s[i + k + 1];
      }
    }
    ContainsIffOccurs(s, w);
  }

  lemma {:induction false} NoneFound(s: string, words: seq<string>, why: seq<Absence>)
    requires |why| == |words|
    requires forall i :: 0 <= i < |words| ==> Shows(s, words[i], why[i])
    ensures CountFound(s, words) == 0
  {
    forall i | 0 <= i < |words| ensures !Contains(s, words[i]) {
      AbsenceIsSound(s, words[i], why[i]);
    }
    CountFoundAbsent(s, words);
  }

  lemma {:induction false} AllFound(s: string, words: seq<string>)
    requires forall i :: 0 <= i < |words| ==> Contains(s, words[i])
    ensures CountFound(s, words) == |words|
  {
    if words != [] {
      AllFound(s, words[..|words| - 1]);
    }
  }

  lemma ContainsAt(s: string, w: string, i: nat)
    requires i + |w| <= |s| && s[i..i + |w|] == w
    ensures Contains(s, w)
  {
    ContainsIffOccurs(s, w);
    assert OccursAt(s, w, i);
  }

  /** Counting over a list split at `k` adds the counts of the two parts. */
  lemma CountFoundSplit(text: string, words: seq<string>, k: nat)
    requires k <= |words|
    ensures CountFound(text, words) == CountFound(text, words[..k]) + CountFound(text, words[k..])
  {
    assert words == words[..k] + words[k..];
    CountFoundAppend(text, words[..k], words[k..]);
  }

  /** None of the first eight Turkish words occurs in "hello". */
  lemma HelloMissesTurkishA()
    ensures CountFound("hello", ["merhaba", "nas\U{131}l", "nerede", "ne", "kim", "hangi", "bu", "\U{15F}u"]) == 0
  {
    NoneFound("hello", ["merhaba", "nas\U{131}l", "nerede", "ne", "kim", "hangi", "bu", "\U{15F}u"], [CharAt(0), CharAt(0), CharAt(0), CharAt(0), CharAt(0), CharAt(1), CharAt(0), CharAt(1)]);
  }

  /** Nor do the eight after "o". */
  lemma HelloMissesTurkishB()
    ensures CountFound("hello", ["ben", "sen", "biz", "siz", "onlar", "evet", "hay\U{131}r", "te\U{15F}ekk\U{FC}r"]) == 0
  {
    NoneFound("hello", ["ben", "sen", "biz", "siz", "onlar", "evet", "hay\U{131}r", "te\U{15F}ekk\U{FC}r"], [CharAt(0), CharAt(0), CharAt(0), CharAt(0), CharAt(1), CharAt(1), CharAt(1), CharAt(0)]);
  }

  /** Nor do the last eight. */
  lemma HelloMissesTurkishC()
    ensures CountFound("hello", ["l\U{FC}tfen", "g\U{FC}zel", "iyi", "k\U{F6}t\U{FC}", "b\U{FC}y\U{FC}k", "k\U{FC}\U{E7}\U{FC}k", "var", "yok"]) == 0
  {
    NoneFound("hello", ["l\U{FC}tfen", "g\U{FC}zel", "iyi", "k\U{F6}t\U{FC}", "b\U{FC}y\U{FC}k", "k\U{FC}\U{E7}\U{FC}k", "var", "yok"], [CharAt(1), CharAt(0), CharAt(0), CharAt(0), CharAt(0), CharAt(0), CharAt(0), CharAt(0)]);
  }

  /** None of the English words from "how" to "no" occurs in "hello". */
  lemma HelloMissesEnglishA()
    ensures CountFound("hello", ["how", "where", "what", "who", "which", "this", "that", "i", "you", "we", "they", "yes"]) == 0
  {
    NoneFound("hello", ["how", "where", "what", "who", "which", "this", "that", "i", "you", "we", "they", "yes"], [CharAt(2), CharAt(0), CharAt(0), CharAt(0), CharAt(0), CharAt(0), CharAt(0), CharAt(0), CharAt(0), CharAt(0), CharAt(0), CharAt(0)]);
  }

  /** Nor do those from "thank" to "are". */
  lemma HelloMissesEnglishB()
    ensures CountFound("hello", ["no", "thank", "please", "good", "bad", "big", "small", "can", "will", "would", "could", "is", "are"]) == 0
  {
    NoneFound("hello", ["no", "thank", "please", "good", "bad", "big", "small", "can", "will", "would", "could", "is", "are"], [CharAt(0), CharAt(0), CharAt(0), CharAt(0), CharAt(0), CharAt(0), CharAt(0), CharAt(0), CharAt(0), CharAt(0), CharAt(0), CharAt(0), CharAt(0)]);
  }

  /** None of the first twelve Turkish words occurs in "var". */
  lemma VarMissesTurkishA()
    ensures CountFound("var", ["merhaba", "nas\U{131}l", "nerede", "ne", "kim", "hangi", "bu", "\U{15F}u", "o", "ben", "sen", "biz"]) == 0
  {
    NoneFound("var", ["merhaba", "nas\U{131}l", "nerede", "ne", "kim", "hangi", "bu", "\U{15F}u", "o", "ben", "sen", "biz"], [CharAt(0), CharAt(0), CharAt(0), CharAt(0), CharAt(0), CharAt(0), CharAt(0), CharAt(0), CharAt(0), CharAt(0), CharAt(0), CharAt(0)]);
  }

  /** Nor do the next eleven, which end the component's list. */
  lemma VarMissesTurkishB()
    ensures CountFound("var", ["siz", "onlar", "evet", "hay\U{131}r", "te\U{15F}ekk\U{FC}r", "l\U{FC}tfen", "g\U{FC}zel", "iyi", "k\U{F6}t\U{FC}", "b\U{FC}y\U{FC}k", "k\U{FC}\U{E7}\U{FC}k"]) == 0
  {
    NoneFound("var", ["siz", "onlar", "evet", "hay\U{131}r", "te\U{15F}ekk\U{FC}r", "l\U{FC}tfen", "g\U{FC}zel", "iyi", "k\U{F6}t\U{FC}", "b\U{FC}y\U{FC}k", "k\U{FC}\U{E7}\U{FC}k"], [CharAt(0), CharAt(0), CharAt(0), CharAt(0), CharAt(0), CharAt(0), CharAt(0), CharAt(0), CharAt(0), CharAt(0), CharAt(0)]);
  }

  /** None of the first thirteen English words occurs in "var". */
  lemma VarMissesEnglishA()
    ensures CountFound("var", ["hello", "how", "where", "what", "who", "which", "this", "that", "i", "you", "we", "they", "yes"]) == 0
  {
    NoneFound("var", ["hello", "how", "where", "what", "who", "which", "this", "that", "i", "you", "we", "they", "yes"], [CharAt(0), CharAt(0), CharAt(0), CharAt(0), CharAt(0), CharAt(0), CharAt(0), CharAt(0), CharAt(0), CharAt(0), CharAt(0), CharAt(0), CharAt(0)]);
  }

  /** Nor do the last thirteen; "are" fails on its "e". */
  lemma VarMissesEnglishB()
    ensures CountFound("var", ["no", "thank", "please", "good", "bad", "big", "small", "can", "will", "would", "could", "is", "are"]) == 0
  {
    NoneFound("var", ["no", "thank", "please", "good", "bad", "big", "small", "can", "will", "would", "could", "is", "are"], [CharAt(0), CharAt(0), CharAt(0), CharAt(0), CharAt(0), CharAt(0), CharAt(0), CharAt(0), CharAt(0), CharAt(0), CharAt(0), CharAt(0), CharAt(2)]);
  }

  /** Of the utilities' Turkish words, only "o" occurs in "hello". */
  lemma HelloTurkishCount()
    ensures CountFound("hello", UtilsTurkish) == 1
  {
    var a, b, c := ["merhaba", "nas\U{131}l", "nerede", "ne", "kim", "hangi", "bu", "\U{15F}u"],
      ["ben", "sen", "biz", "siz", "onlar", "evet", "hay\U{131}r", "te\U{15F}ekk\U{FC}r"],
      ["l\U{FC}tfen", "g\U{FC}zel", "iyi", "k\U{F6}t\U{FC}", "b\U{FC}y\U{FC}k", "k\U{FC}\U{E7}\U{FC}k", "var", "yok"];
    assert UtilsTurkish == a + ["o"] + b + c;
    HelloMissesTurkishA();
    HelloMissesTurkishB();
    HelloMissesTurkishC();
    ContainsAt("hello", "o", 4);
    AllFound("hello", ["o"]);
    CountFoundAppend("hello", a, ["o"]);
    CountFoundAppend("hello", a + ["o"], b);
    CountFoundAppend("hello", a + ["o"] + b, c);
  }

  /** Of the utilities' English words, only "hello" itself occurs in "hello". */
  lemma HelloEnglishCount()
    ensures CountFound("hello", UtilsEnglish) == 1
  {
    var a, b := ["how", "where", "what", "who", "which", "this", "that", "i", "you", "we", "they", "yes"],
      ["no", "thank", "please", "good", "bad", "big", "small", "can", "will", "would", "could", "is", "are"];
    assert UtilsEnglish == ["hello"] + a + b;
    HelloMissesEnglishA();
    HelloMissesEnglishB();
    ContainsAt("hello", "hello", 0);
    AllFound("hello", ["hello"]);
    CountFoundAppend("hello", ["hello"], a);
    CountFoundAppend("hello", ["hello"] + a, b);
  }

  /** None of the four words only the utilities list occurs in "hello". */
  lemma HelloLacksTheExtras()
    ensures CountFound("hello", ["var", "yok", "is", "are"]) == 0
  {
    NoneFound("hello", ["var", "yok", "is", "are"], [CharAt(0), CharAt(0), CharAt(0), CharAt(0)]);
  }

  /**
   * "hello" is a tie: the Turkish "o" and the English "hello" each match once, so both
   * copies of the heuristic answer 'auto'.
   */
  lemma HelloIsAuto()
    ensures Classify("hello", UtilsTurkish, UtilsEnglish) == Auto
    ensures Classify("hello", ComponentTurkish, ComponentEnglish) == Auto
  {
    var s := "hello";
    assert ToLower(s) == s;
    HelloTurkishCount();
    HelloEnglishCount();
    HelloLacksTheExtras();
    CopiesAgree(s);
  }

  /** No word of the component's Turkish list occurs in "var". */
  lemma VarComponentTurkishCount()
    ensures CountFound("var", ComponentTurkish) == 0
  {
    var a, b := ["merhaba", "nas\U{131}l", "nerede", "ne", "kim", "hangi", "bu", "\U{15F}u", "o", "ben", "sen", "biz"],
      ["siz", "onlar", "evet", "hay\U{131}r", "te\U{15F}ekk\U{FC}r", "l\U{FC}tfen", "g\U{FC}zel", "iyi", "k\U{F6}t\U{FC}", "b\U{FC}y\U{FC}k", "k\U{FC}\U{E7}\U{FC}k"];
    assert ComponentTurkish == a + b;
    VarMissesTurkishA();
    VarMissesTurkishB();
    CountFoundAppend("var", a, b);
  }

  /** Of the utilities' Turkish words, only "var" itself occurs in "var". */
  lemma VarUtilsTurkishCount()
    ensures CountFound("var", UtilsTurkish) == 1
  {
    assert UtilsTurkish == ComponentTurkish + ["var", "yok"];
    VarComponentTurkishCount();
    ContainsAt("var", "var", 0);
    AbsenceIsSound("var", "yok", CharAt(0));
    assert CountFound("var", ["var", "yok"]) == 1;
    CountFoundAppend("var", ComponentTurkish, ["var", "yok"]);
  }

  /** No English word of the utilities' list occurs in "var". */
  lemma VarUtilsEnglishCount()
    ensures CountFound("var", UtilsEnglish) == 0
  {
    var e1, e2 := ["hello", "how", "where", "what", "who", "which", "this", "that", "i", "you", "we", "they", "yes"],
      ["no", "thank", "please", "good", "bad", "big", "small", "can", "will", "would", "could", "is", "are"];
    assert UtilsEnglish == e1 + e2;
    VarMissesEnglishA();
    VarMissesEnglishB();
    CountFoundAppend("var", e1, e2);
  }

  /** Nor does any of the component's English words, which are a prefix of that list. */
  lemma VarComponentEnglishCount()
    ensures CountFound("var", ComponentEnglish) == 0
  {
    VarUtilsEnglishCount();
    CountFoundSplit("var", UtilsEnglish, 24);
  }

  /**
   * "var" ("there is") is Turkish to the utilities' copy, whose list ends with "var" and
   * "yok", but 'auto' to the component's copy, whose lists stop before them.
   */
  lemma VarSplitsTheCopies()
    ensures Classify("var", UtilsTurkish, UtilsEnglish) == Tr
    ensures Classify("var", ComponentTurkish, ComponentEnglish) == Auto
  {
    assert ToLower("var") == "var";
    VarUtilsTurkishCount();
    VarUtilsEnglishCount();
    VarComponentTurkishCount();
    VarComponentEnglishCount();
  }

  /** Of the Turkish words after "nas\U{131}l", none up to "siz" occurs in "merhaba nas\U{131}ls\U{131}n". */
  lemma MerhabaMissesTurkishA()
    ensures CountFound("merhaba nas\U{131}ls\U{131}n", ["nerede", "ne", "kim", "hangi", "bu", "\U{15F}u", "o", "ben", "sen", "biz", "siz"]) == 0
  {
    NoneFound("merhaba nas\U{131}ls\U{131}n", ["nerede", "ne", "kim", "hangi", "bu", "\U{15F}u", "o", "ben", "sen", "biz", "siz"],
      [CharAt(4), PairAt(0), CharAt(0), CharAt(3), CharAt(1), CharAt(0), CharAt(0), PairAt(0), PairAt(0), CharAt(1), CharAt(1)]);
  }

  /** Nor does any from "onlar" on. */
  lemma MerhabaMissesTurkishB()
    ensures CountFound("merhaba nas\U{131}ls\U{131}n", ["onlar", "evet", "hay\U{131}r", "te\U{15F}ekk\U{FC}r", "l\U{FC}tfen", "g\U{FC}zel", "iyi", "k\U{F6}t\U{FC}", "b\U{FC}y\U{FC}k", "k\U{FC}\U{E7}\U{FC}k", "var", "yok"]) == 0
  {
    NoneFound("merhaba nas\U{131}ls\U{131}n", ["onlar", "evet", "hay\U{131}r", "te\U{15F}ekk\U{FC}r", "l\U{FC}tfen", "g\U{FC}zel", "iyi", "k\U{F6}t\U{FC}", "b\U{FC}y\U{FC}k", "k\U{FC}\U{E7}\U{FC}k", "var", "yok"],
      [CharAt(0), CharAt(1), CharAt(2), CharAt(0), CharAt(1), CharAt(0), CharAt(0), CharAt(0), CharAt(1), CharAt(0), CharAt(0), CharAt(0)]);
  }

  /** None of the English words up to "yes" occurs in "merhaba nas\U{131}ls\U{131}n". */
  lemma MerhabaMissesEnglishA()
    ensures CountFound("merhaba nas\U{131}ls\U{131}n", ["hello", "how", "where", "what", "who", "which", "this", "that", "i", "you", "we", "they", "yes"]) == 0
  {
    NoneFound("merhaba nas\U{131}ls\U{131}n", ["hello", "how", "where", "what", "who", "which", "this", "that", "i", "you", "we", "they", "yes"],
      [CharAt(4), CharAt(1), CharAt(0), CharAt(0), CharAt(0), CharAt(0), CharAt(0), CharAt(0), CharAt(0), CharAt(0), CharAt(0), CharAt(0), CharAt(0)]);
  }

  /** Nor does any from "no" on. */
  lemma MerhabaMissesEnglishB()
    ensures CountFound("merhaba nas\U{131}ls\U{131}n", ["no", "thank", "please", "good", "bad", "big", "small", "can", "will", "would", "could", "is", "are"]) == 0
  {
    NoneFound("merhaba nas\U{131}ls\U{131}n", ["no", "thank", "please", "good", "bad", "big", "small", "can", "will", "would", "could", "is", "are"],
      [CharAt(1), CharAt(0), CharAt(0), CharAt(0), CharAt(2), CharAt(1), PairAt(0), CharAt(0), CharAt(0), CharAt(0), CharAt(0), CharAt(0), PairAt(0)]);
  }

  /** "merhaba" occurs at position 0 and "nas\U{131}l" at position 8. */
  lemma MerhabaFindsGreeting()
    ensures CountFound("merhaba nas\U{131}ls\U{131}n", ["merhaba", "nas\U{131}l"]) == 2
  {
    MerhabaFindsMerhaba();
    MerhabaFindsNasil();
    AllFound("merhaba nas\U{131}ls\U{131}n", ["merhaba", "nas\U{131}l"]);
  }

  lemma MerhabaFindsMerhaba()
    ensures Contains("merhaba nas\U{131}ls\U{131}n", "merhaba")
  {
    ContainsAt("merhaba nas\U{131}ls\U{131}n", "merhaba", 0);
  }

  lemma MerhabaFindsNasil()
    ensures Contains("merhaba nas\U{131}ls\U{131}n", "nas\U{131}l")
  {
    ContainsAt("merhaba nas\U{131}ls\U{131}n", "nas\U{131}l", 8);
  }

  lemma MerhabaIsLowerCase()
    ensures ToLower("merhaba nas\U{131}ls\U{131}n") == "merhaba nas\U{131}ls\U{131}n"
  {
  }

  /** None of the four words only the utilities list occurs in "merhaba nas\U{131}ls\U{131}n". */
  lemma MerhabaLacksTheExtras()
    ensures CountFound("merhaba nas\U{131}ls\U{131}n", ["var", "yok", "is", "are"]) == 0
  {
    NoneFound("merhaba nas\U{131}ls\U{131}n", ["var", "yok", "is", "are"], [CharAt(0), CharAt(0), CharAt(0), PairAt(0)]);
  }

  /** "merhaba" and "nas\U{131}l" are the two Turkish words found in "merhaba nas\U{131}ls\U{131}n". */
  lemma MerhabaTurkishCount()
    ensures CountFound("merhaba nas\U{131}ls\U{131}n", UtilsTurkish) == 2
  {
    var s := "merhaba nas\U{131}ls\U{131}n";
    var a, b := ["nerede", "ne", "kim", "hangi", "bu", "\U{15F}u", "o", "ben", "sen", "biz", "siz"],
      ["onlar", "evet", "hay\U{131}r", "te\U{15F}ekk\U{FC}r", "l\U{FC}tfen", "g\U{FC}zel", "iyi", "k\U{F6}t\U{FC}", "b\U{FC}y\U{FC}k", "k\U{FC}\U{E7}\U{FC}k", "var", "yok"];
    assert UtilsTurkish == ["merhaba", "nas\U{131}l"] + a + b;
    MerhabaMissesTurkishA();
    MerhabaMissesTurkishB();
    MerhabaFindsGreeting();
    CountFoundAppend(s, ["merhaba", "nas\U{131}l"], a);
    CountFoundAppend(s, ["merhaba", "nas\U{131}l"] + a, b);
  }

  /** No English word occurs in "merhaba nas\U{131}ls\U{131}n". */
  lemma MerhabaEnglishCount()
    ensures CountFound("merhaba nas\U{131}ls\U{131}n", UtilsEnglish) == 0
  {
    var a, b := ["hello", "how", "where", "what", "who", "which", "this", "that", "i", "you", "we", "they", "yes"],
      ["no", "thank", "please", "good", "bad", "big", "small", "can", "will", "would", "could", "is", "are"];
    assert UtilsEnglish == a + b;
    MerhabaMissesEnglishA();
    MerhabaMissesEnglishB();
    CountFoundAppend("merhaba nas\U{131}ls\U{131}n", a, b);
  }

  /** "merhaba nas\U{131}ls\U{131}n" counts 2 to 0 and is Turkish to both copies. */
  lemma MerhabaIsTurkish()
    ensures Classify("merhaba nas\U{131}ls\U{131}n", UtilsTurkish, UtilsEnglish) == Tr
    ensures Classify("merhaba nas\U{131}ls\U{131}n", ComponentTurkish, ComponentEnglish) == Tr
  {
    MerhabaIsLowerCase();
    MerhabaTurkishCount();
    MerhabaEnglishCount();
    MerhabaLacksTheExtras();
    CopiesAgree("merhaba nas\U{131}ls\U{131}n");
  }
}
