/** The slug a project's id is derived from: lower-case the title, turn each
    run of whitespace into one hyphen, then drop every character outside
    `[a-z0-9-]`. */
module Slug {
  import opened Text

  predicate IsSlugChar(c: char) {
    'a' <= c <= 'z' || '0' <= c <= '9' || c == '-'
  }

  /** Every character is one `generateId` keeps. */
  predicate IsSlug(s: string) {
    forall i | 0 <= i < |s| :: IsSlugChar(s[i])
  }

  /** `s` has no whitespace character. */
  predicate SpaceFree(s: string) {
    forall i | 0 <= i < |s| :: !IsSpace(s[i])
  }

  /** `s.replace(/\s+/g, '-')`: each maximal whitespace run becomes one `-`. */
  function Hyphenate(s: string): (r: string)
    ensures |r| <= |s|
    decreases |s|
  {
    if s == [] then []
    else if IsSpace(s[0]) then "-" + Hyphenate(TrimStart(s[1..]))
    else [s[0]] + Hyphenate(s[1..])
  }

  /** `s.replace(/[^a-z0-9-]/g, '')`: the slug characters of `s`, in order. */
  function KeepSlugChars(s: string): (r: string)
    ensures IsSlug(r)
    ensures |r| <= |s|
    decreases |s|
  {
    if s == [] then []
    else if IsSlugChar(s[0]) then [s[0]] + KeepSlugChars(s[1..])
    else KeepSlugChars(s[1..])
  }

  /** `generateId(title)` */
  function GenerateId(title: string): (id: string)
    ensures IsSlug(id)
    ensures |id| <= |title|
  {
    KeepSlugChars(Hyphenate(Lower(title)))
  }

  // ---------------------------------------------------------------------------
  // Each stage is the identity on what the earlier stages produce.

  lemma LowerOfSlug(s: string)
    requires IsSlug(s)
    ensures Lower(s) == s
  {
    LowerAt(s);
  }

  lemma {:induction false} HyphenateSpaceFree(s: string)
    requires SpaceFree(s)
    ensures Hyphenate(s) == s
    decreases |s|
  {
    if s != [] {
      HyphenateSpaceFree(s[1..]);
    }
  }

  /** Keeping slug characters changes a string exactly when it has a character
      outside `[a-z0-9-]`. */
  lemma {:induction false} KeepSlugCharsFixpoint(s: string)
    ensures KeepSlugChars(s) == s <==> IsSlug(s)
    decreases |s|
  {
    if s != [] {
      KeepSlugCharsFixpoint(s[1..]);
      if !IsSlugChar(s[0]) {
        assert |KeepSlugChars(s)| < |s|;
      }
    }
  }

  /** A slug is its own slug. */
  lemma GenerateIdIdempotent(title: string)
    ensures GenerateId(GenerateId(title)) == GenerateId(title)
  {
    var id := GenerateId(title);
    LowerOfSlug(id);
    HyphenateSpaceFree(id);
    KeepSlugCharsFixpoint(id);
  }

  /** The slug of a string is the string itself exactly when it already is a slug. */
  lemma GenerateIdFixpoint(s: string)
    ensures GenerateId(s) == s <==> IsSlug(s)
  {
    if IsSlug(s) {
      LowerOfSlug(s);
      HyphenateSpaceFree(s);
      KeepSlugCharsFixpoint(s);
    }
  }

  // ---------------------------------------------------------------------------
  // Whitespace runs

  lemma {:induction false} SkipSpacesAppend(a: string, b: string)
    requires !Blank(a)
    ensures TrimStart(a + b) == TrimStart(a) + b
    decreases |a|
  {
    if IsSpace(a[0]) {
      assert !Blank(a[1..]) by {
        var i :| 0 <= i < |a| && !IsSpace(a[i]);
        assert a[1..][i - 1] == a[i];
      }
      SkipSpacesAppend(a[1..], b);
      assert (a + b)[1..] == a[1..] + b;
    }
  }

  lemma {:induction false} SkipSpacesOverRun(run: string, b: string)
    requires Blank(run)
    requires b == [] || !IsSpace(b[0])
    ensures TrimStart(run + b) == b
    decreases |run|
  {
    if run != [] {
      assert (run + b)[1..] == run[1..] + b;
      SkipSpacesOverRun(run[1..], b);
    }
  }

  /** A non-empty string ending in a non-space keeps that ending once its
      leading whitespace is skipped, even when followed by more text. */
  lemma SkipSpacesBeforeEnding(t: string, b: string)
    requires t != [] && !IsSpace(t[|t| - 1])
    ensures var u := TrimStart(t);
      && u != [] && u[|u| - 1] == t[|t| - 1] && |u| <= |t|
      && TrimStart(t + b) == u + b
  {
    assert !Blank(t);
    SkipSpacesAppend(t, b);
  }

  /** Hyphenation works piece by piece when the cut is not inside a whitespace run. */
  lemma {:induction false} HyphenateAppend(a: string, b: string)
    requires a == [] || !IsSpace(a[|a| - 1])
    ensures Hyphenate(a + b) == Hyphenate(a) + Hyphenate(b)
    decreases |a|
  {
    if a == [] {
      assert a + b == b;
    } else if IsSpace(a[0]) {
      var t := a[1..];
      var u := TrimStart(t);
      assert TrimStart(t + b) == u + b && |u| < |a| && u != [] && !IsSpace(u[|u| - 1]) by {
        assert t[|t| - 1] == a[|a| - 1];
        SkipSpacesBeforeEnding(t, b);
      }
      HyphenateAppend(u, b);
      assert Hyphenate(a + b) == "-" + Hyphenate(u + b) by {
        assert (a + b)[0] == a[0] && (a + b)[1..] == t + b;
      }
    } else {
      HyphenateAppend(a[1..], b);
      assert Hyphenate(a + b) == [a[0]] + Hyphenate(a[1..] + b) by {
        assert (a + b)[0] == a[0] && (a + b)[1..] == a[1..] + b;
      }
    }
  }

  /** A leading whitespace run becomes one `-`. */
  lemma HyphenateLeadingRun(run: string, b: string)
    requires run != [] && Blank(run)
    requires b == [] || !IsSpace(b[0])
    ensures Hyphenate(run + b) == "-" + Hyphenate(b)
  {
    var rb := run + b;
    assert rb[0] == run[0] && rb[1..] == run[1..] + b;
    SkipSpacesOverRun(run[1..], b);
  }

  /** A maximal whitespace run between `a` and `b` becomes exactly one `-`. */
  lemma HyphenateRun(a: string, run: string, b: string)
    requires a == [] || !IsSpace(a[|a| - 1])
    requires run != [] && Blank(run)
    requires b == [] || !IsSpace(b[0])
    ensures Hyphenate(a + run + b) == Hyphenate(a) + "-" + Hyphenate(b)
  {
    assert a + run + b == a + (run + b);
    HyphenateAppend(a, run + b);
    HyphenateLeadingRun(run, b);
  }

  /** No whitespace survives hyphenation. */
  lemma {:induction false} HyphenateRemovesSpaces(s: string)
    ensures SpaceFree(Hyphenate(s))
    decreases |s|
  {
    if s != [] {
      if IsSpace(s[0]) {
        HyphenateRemovesSpaces(TrimStart(s[1..]));
      } else {
        HyphenateRemovesSpaces(s[1..]);
      }
    }
  }

  lemma {:induction false} KeepSlugCharsAppend(a: string, b: string)
    ensures KeepSlugChars(a + b) == KeepSlugChars(a) + KeepSlugChars(b)
    decreases |a|
  {
    if a == [] {
      assert a + b == b;
    } else {
      assert (a + b)[0] == a[0] && (a + b)[1..] == a[1..] + b;
      KeepSlugCharsAppend(a[1..], b);
    }
  }

  /** The id of a title cut outside a whitespace run is the ids of the two parts, joined. */
  lemma GenerateIdAppend(a: string, b: string)
    requires a == [] || !IsSpace(a[|a| - 1])
    ensures GenerateId(a + b) == GenerateId(a) + GenerateId(b)
  {
    LowerAppend(a, b);
    LowerAt(a);
    HyphenateAppend(Lower(a), Lower(b));
    KeepSlugCharsAppend(Hyphenate(Lower(a)), Hyphenate(Lower(b)));
  }

  /** A title word: an ASCII letter or digit, then lower-case letters and digits. */
  predicate IsTitleWord(w: string) {
    && w != []
    && (IsUpperAscii(w[0]) || IsLowerAscii(w[0]) || '0' <= w[0] <= '9')
    && forall i | 1 <= i < |w| :: IsLowerAscii(w[i]) || '0' <= w[i] <= '9'
  }

  /** The word with its first letter lower-cased. */
  function Decapitalize(w: string): string {
    if w == [] then [] else [LowerChar(w[0])] + w[1..]
  }

  function DecapitalizeAll(words: seq<string>): (r: seq<string>)
    ensures |r| == |words|
  {
    if words == [] then [] else [Decapitalize(words[0])] + DecapitalizeAll(words[1..])
  }

  lemma GenerateIdOfWord(w: string)
    requires IsTitleWord(w)
    ensures Lower(w) == Decapitalize(w)
    ensures GenerateId(w) == Decapitalize(w)
  {
    assert IsSlug(w[1..]) by {
      forall i | 0 <= i < |w[1..]| ensures IsSlugChar(w[1..][i]) {
        assert w[1..][i] == w[i + 1];
      }
    }
    LowerOfSlug(w[1..]);
    assert w == [w[0]] + w[1..];
    var l := Decapitalize(w);
    assert IsSlug(l);
    HyphenateSpaceFree(l);
    KeepSlugCharsFixpoint(l);
  }

  /** A single space in front of a word becomes a hyphen in front of its id. */
  lemma GenerateIdAfterSpace(rest: string)
    requires rest != [] && !IsSpace(rest[0])
    ensures GenerateId(" " + rest) == "-" + GenerateId(rest)
  {
    LowerAppend(" ", rest);
    HyphenateLeadingRun(" ", Lower(rest));
  }

  /** Words joined by spaces start with the first word's first character. */
  lemma JoinedWordsStart(words: seq<string>)
    requires |words| >= 1 && words[0] != []
    ensures var j := Join(words, ' '); j != [] && j[0] == words[0][0]
  {
  }

  /** A word, a space and more words: the word's id, a hyphen, the rest's id. */
  lemma GenerateIdOfWordThenRest(w: string, rest: string)
    requires IsTitleWord(w)
    requires rest != [] && !IsSpace(rest[0])
    ensures GenerateId(w + (" " + rest)) == Decapitalize(w) + "-" + GenerateId(rest)
  {
    GenerateIdOfWord(w);
    assert !IsSpace(w[|w| - 1]) by {
      assert IsLowerAscii(w[|w| - 1]) || '0' <= w[|w| - 1] <= '9' || |w| == 1;
    }
    GenerateIdAppend(w, " " + rest);
    GenerateIdAfterSpace(rest);
  }

  /** A title of words separated by single spaces gets the words, first
      letters lower-cased, joined by hyphens as its id. */
  lemma {:induction false} GenerateIdOfWords(words: seq<string>)
    requires |words| >= 1
    requires forall i | 0 <= i < |words| :: IsTitleWord(words[i])
    ensures GenerateId(Join(words, ' ')) == Join(DecapitalizeAll(words), '-')
    decreases |words|
  {
    if |words| == 1 {
      GenerateIdOfWord(words[0]);
    } else {
      var tail := words[1..];
      GenerateIdOfWords(tail);
      assert IsTitleWord(tail[0]);
      JoinedWordsStart(tail);
      assert Join(words, ' ') == words[0] + (" " + Join(tail, ' '));
      GenerateIdOfWordThenRest(words[0], Join(tail, ' '));
    }
  }

  lemma Join3(a: string, b: string, c: string, sep: char)
    ensures Join([a, b, c], sep) == a + [sep] + b + [sep] + c
  {
    var s := [a, b, c];
    assert s[1..] == [b, c] && [b, c][1..] == [c];
    assert Join([b, c], sep) == b + [sep] + c;
  }

  lemma DecapitalizeAll3(a: string, b: string, c: string)
    ensures DecapitalizeAll([a, b, c]) == [Decapitalize(a), Decapitalize(b), Decapitalize(c)]
  {
    var s := [a, b, c];
    assert s[1..] == [b, c] && [b, c][1..] == [c];
    assert DecapitalizeAll([b, c]) == [Decapitalize(b), Decapitalize(c)];
  }

  /** The three-word case of `GenerateIdOfWords`, with the lower-cased words
      `l1`, `l2`, `l3` named so that callers can supply them. */
  lemma ThreeWordTitleId(title: string, w1: string, w2: string, w3: string,
                         id: string, l1: string, l2: string, l3: string)
    requires IsTitleWord(w1) && IsTitleWord(w2) && IsTitleWord(w3)
    requires title == w1 + " " + w2 + " " + w3
    requires l1 == Decapitalize(w1) && l2 == Decapitalize(w2) && l3 == Decapitalize(w3)
    requires id == l1 + "-" + l2 + "-" + l3
    ensures GenerateId(title) == id
  {
    GenerateIdOfWords([w1, w2, w3]);
    Join3(w1, w2, w3, ' ');
    DecapitalizeAll3(w1, w2, w3);
    Join3(l1, l2, l3, '-');
  }

  // ---------------------------------------------------------------------------
  // Examples

  /** The two-word case: a word, a space and a word. */
  lemma TwoWordTitleId(title: string, w1: string, w2: string, id: string, l1: string, l2: string)
    requires IsTitleWord(w1) && IsTitleWord(w2)
    requires title == w1 + " " + w2
    requires l1 == Decapitalize(w1) && l2 == Decapitalize(w2)
    requires id == l1 + "-" + l2
    ensures GenerateId(title) == id
  {
    assert title == w1 + (" " + w2);
    GenerateIdOfWordThenRest(w1, w2);
    GenerateIdOfWord(w2);
  }

  // The literals of the example below each sit in a lemma of their own, so
  // that no proof has to evaluate the whole pipeline on a literal.

  lemma DrivewayWord() ensures IsTitleWord("Driveway") && Decapitalize("Driveway") == "driveway" {}
  lemma AsphaltingWord() ensures IsTitleWord("Asphalting") && Decapitalize("Asphalting") == "asphalting" {}

  lemma DrivewayAsphaltingParts(title: string, id: string)
    requires title == "Driveway Asphalting" && id == "driveway-asphalting"
    ensures title == "Driveway" + " " + "Asphalting"
    ensures id == "driveway" + "-" + "asphalting"
  {
  }

  /** A title of capitalised words separated by single spaces. */
  lemma DrivewayAsphaltingId(title: string, id: string)
    requires title == "Driveway Asphalting" && id == "driveway-asphalting"
    ensures GenerateId(title) == id
  {
    DrivewayAsphaltingParts(title, id);
    DrivewayWord();
    AsphaltingWord();
    TwoWordTitleId(title, "Driveway", "Asphalting", id, "driveway", "asphalting");
  }

  /** The punctuation at the end of a title is dropped. */
  lemma DrivewayExample(title: string)
    requires title == "Driveway Asphalting!"
    ensures GenerateId(title) == "driveway-asphalting"
  {
    var words := title[..|title| - 1];
    var bang := title[|title| - 1..];
    assert words == "Driveway Asphalting";
    DrivewayAsphaltingId(words, "driveway-asphalting");
    assert title == words + bang;
    GenerateIdAppend(words, bang);
    assert bang == "!";
    assert GenerateId(bang) == "";
  }

  /** Different titles can share an id: the id does not identify the title. */
  lemma GenerateIdNotInjective()
    ensures "A!" != "A" && GenerateId("A!") == GenerateId("A") == "a"
  {
  }
}
