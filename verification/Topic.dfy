/** Topic matching of AMQP 0-9-1, section 3.1.3.3: keys are words between dots, `*` stands for one word
    and `#` for zero or more words. */
module Topic {

  /** The words of a key; the empty key has none. */
  function Words(key: string): seq<string> {
    if key == "" then [] else SplitDots(key)
  }

  function SplitDots(s: string): (words: seq<string>)
    ensures words != []
  {
    if s == "" then [""]
    else
      var rest := SplitDots(s[1..]);
      if s[0] == '.' then [""] + rest else [[s[0]] + rest[0]] + rest[1..]
  }

  function Joined(words: seq<string>): string
    requires words != []
  {
    if |words| == 1 then words[0] else words[0] + "." + Joined(words[1..])
  }

  predicate Dotless(word: string) {
    forall c | c in word :: c != '.'
  }

  /** A key other than the empty one is its words with dots between them, and they hold none. */
  lemma {:induction false} WordsJoin(key: string)
    requires key != ""
    ensures Words(key) != [] && Joined(Words(key)) == key && forall w | w in Words(key) :: Dotless(w)
  {
    SplitJoins(key);
  }

  lemma {:induction false} SplitJoins(s: string)
    ensures Joined(SplitDots(s)) == s && forall w | w in SplitDots(s) :: Dotless(w)
  {
    if s != "" {
      var rest := SplitDots(s[1..]);
      SplitJoins(s[1..]);
      assert s == [s[0]] + s[1..];
      if s[0] == '.' {
        assert ([""] + rest)[1..] == rest;
      } else {
        var words := [[s[0]] + rest[0]] + rest[1..];
        assert words[1..] == rest[1..];
        assert forall w | w in words :: w == [s[0]] + rest[0] || w in rest;
        assert rest[0] in rest;
      }
    }
  }

  lemma JoinedMore(w: string, rest: seq<string>)
    ensures Joined([w] + rest) == if rest == [] then w else w + ("." + Joined(rest))
  {
    assert ([w] + rest)[1..] == rest;
  }

  lemma JoinedFirst(w: string, rest: seq<string>)
    requires w != ""
    ensures Joined([w] + rest) == [w[0]] + Joined([w[1..]] + rest)
  {
    JoinedMore(w, rest);
    JoinedMore(w[1..], rest);
    assert w == [w[0]] + w[1..];
  }

  lemma SplitFirst(c: char, s: string)
    ensures SplitDots([c] + s) == (if c == '.' then [""] + SplitDots(s) else [[c] + SplitDots(s)[0]] + SplitDots(s)[1..])
  {
    assert ([c] + s)[1..] == s;
  }

  /** Words of which each holds no dot are found again. */
  lemma {:induction false} JoinSplits(words: seq<string>)
    requires words != [] && forall w | w in words :: Dotless(w)
    ensures SplitDots(Joined(words)) == words
    decreases |words|, |words[0]|
  {
    var w, rest := words[0], words[1..];
    assert w in words && words == [w] + rest;
    if w != "" {
      var shorter := [w[1..]] + rest;
      assert forall x | x in shorter :: x == w[1..] || x in words;
      assert forall c | c in w[1..] :: c in w;
      assert w[0] in w && w == [w[0]] + w[1..];
      JoinSplits(shorter);
      JoinedFirst(w, rest);
      SplitFirst(w[0], Joined(shorter));
    } else if rest != [] {
      assert forall x | x in rest :: x in words;
      JoinSplits(rest);
      JoinedMore(w, rest);
      SplitFirst('.', Joined(rest));
    }
  }

  predicate MatchWords(pattern: seq<string>, words: seq<string>)
    decreases |pattern| + |words|
  {
    if pattern == [] then words == []
    else if pattern[0] == "#" then
      MatchWords(pattern[1..], words) || (words != [] && MatchWords(pattern, words[1..]))
    else
      words != [] && (pattern[0] == "*" || pattern[0] == words[0]) && MatchWords(pattern[1..], words[1..])
  }

  predicate Matches(pattern: string, key: string) {
    MatchWords(Words(pattern), Words(key))
  }

  // -------------------------------------------------------------------------------------------
  // The same relation said without a search: the words are cut into one stretch per pattern word.

  ghost predicate Cuts(pattern: seq<string>, words: seq<string>, cuts: seq<nat>) {
    && |cuts| == |pattern| + 1
    && cuts[0] == 0 && cuts[|pattern|] == |words|
    && forall i | 0 <= i < |pattern| :: Stretch(pattern[i], words, cuts[i], cuts[i + 1])
  }

  ghost predicate Stretch(p: string, words: seq<string>, from: nat, to: nat) {
    && from <= to <= |words|
    && (p != "#" ==> to == from + 1 && (p == "*" || p == words[from]))
  }

  lemma MatchIsACut(pattern: seq<string>, words: seq<string>)
    ensures MatchWords(pattern, words) <==> exists cuts :: Cuts(pattern, words, cuts)
  {
    if MatchWords(pattern, words) {
      var _ := FindCuts(pattern, words);
    }
    if cuts :| Cuts(pattern, words, cuts) {
      CutsMatch(pattern, words, cuts);
    }
  }

  lemma {:induction false} FindCuts(pattern: seq<string>, words: seq<string>) returns (cuts: seq<nat>)
    requires MatchWords(pattern, words)
    ensures Cuts(pattern, words, cuts)
    decreases |pattern| + |words|
  {
    if pattern == [] {
      cuts := [0];
    } else if pattern[0] == "#" && !MatchWords(pattern[1..], words) {
      var rest := FindCuts(pattern, words[1..]);
      cuts := [0] + seq(|pattern|, i requires 0 <= i < |pattern| => rest[i + 1] + 1);
      forall i | 0 <= i < |pattern| ensures Stretch(pattern[i], words, cuts[i], cuts[i + 1]) {
        assert Stretch(pattern[i], words[1..], rest[i], rest[i + 1]);
      }
    } else {
      var taken: nat := if pattern[0] == "#" then 0 else 1;
      var rest := FindCuts(pattern[1..], words[taken..]);
      cuts := [0] + seq(|pattern|, i requires 0 <= i < |pattern| => rest[i] + taken);
      forall i | 0 <= i < |pattern| ensures Stretch(pattern[i], words, cuts[i], cuts[i + 1]) {
        if 0 < i {
          assert Stretch(pattern[1..][i - 1], words[taken..], rest[i - 1], rest[i]);
        }
      }
    }
  }

  lemma {:induction false} CutsMatch(pattern: seq<string>, words: seq<string>, cuts: seq<nat>)
    requires Cuts(pattern, words, cuts)
    ensures MatchWords(pattern, words)
    decreases |pattern| + |words|
  {
    if pattern != [] {
      assert Stretch(pattern[0], words, cuts[0], cuts[1]);
      CutsAscend(pattern, words, cuts, 1);
      if pattern[0] == "#" && cuts[1] > 0 {
        var shorter := [0] + seq(|pattern|, i requires 0 <= i < |pattern| => (cuts[i + 1] - 1) as nat);
        forall i | 0 <= i < |pattern| ensures Stretch(pattern[i], words[1..], shorter[i], shorter[i + 1]) {
          assert Stretch(pattern[i], words, cuts[i], cuts[i + 1]);
        }
        CutsMatch(pattern, words[1..], shorter);
      } else {
        var taken := cuts[1];
        var rest := seq(|pattern|, i requires 0 <= i < |pattern| => (cuts[i + 1] - taken) as nat);
        forall i | 0 <= i < |pattern| - 1 ensures Stretch(pattern[1..][i], words[taken..], rest[i], rest[i + 1]) {
          assert Stretch(pattern[i + 1], words, cuts[i + 1], cuts[i + 2]);
        }
        CutsMatch(pattern[1..], words[taken..], rest);
      }
    }
  }

  /** Cut points from index `from` on are at least `cuts[from]`. */
  lemma {:induction false} CutsAscend(pattern: seq<string>, words: seq<string>, cuts: seq<nat>, from: nat)
    requires Cuts(pattern, words, cuts) && from <= |pattern|
    ensures forall i | from <= i <= |pattern| :: cuts[from] <= cuts[i]
    decreases |pattern| - from
  {
    if from < |pattern| {
      assert Stretch(pattern[from], words, cuts[from], cuts[from + 1]);
      CutsAscend(pattern, words, cuts, from + 1);
    }
  }

  // -------------------------------------------------------------------------------------------
  // The two facts the dead-letter topology rests on.

  /** `#` matches every key. */
  lemma HashMatchesAll(key: string)
    ensures Matches("#", key)
  {
    assert "#"[1..] == "" && SplitDots("") == [""];
    assert ['#'] + "" == "#" && [""][1..] == [];
    assert Words("#") == ["#"];
    HashMatchesWords(Words(key));
  }

  lemma {:induction false} HashMatchesWords(words: seq<string>)
    ensures MatchWords(["#"], words)
  {
    if words != [] {
      HashMatchesWords(words[1..]);
    }
  }

  /** Read as a key, every pattern matches itself, wildcards included. */
  lemma PatternMatchesItself(pattern: string)
    ensures Matches(pattern, pattern)
  {
    WordsMatchThemselves(Words(pattern));
  }

  lemma {:induction false} WordsMatchThemselves(words: seq<string>)
    ensures MatchWords(words, words)
  {
    if words != [] {
      WordsMatchThemselves(words[1..]);
      if words[0] == "#" {
        assert MatchWords(words, words[1..]);
      }
    }
  }
}
