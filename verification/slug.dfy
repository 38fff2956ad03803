/** The product form's slug generator:
    `name.toLowerCase().replace(/[^a-z0-9]+/g, '-').replace(/(^-|-$)/g, '')`,
    over ASCII (every non-ASCII character counts as a separator).

    The recursive functions carry only the facts their own termination
    needs; everything else about them is a lemma, called where it is used. */
module Slug {
  import opened JsValues

  /** The characters the first regular expression keeps: `[a-z0-9]`. */
  predicate IsSlugAlnum(c: char) {
    'a' <= c <= 'z' || '0' <= c <= '9'
  }

  /** Only `[a-z0-9-]` characters, and no "--". */
  predicate IsDashed(s: string) {
    && (forall i :: 0 <= i < |s| ==> IsSlugAlnum(s[i]) || s[i] == '-')
    && (forall i :: 0 <= i < |s| - 1 ==> !(s[i] == '-' && s[i + 1] == '-'))
  }

  /** A well-formed slug: dashed, and neither starting nor ending with '-'. */
  predicate IsSlug(s: string) {
    IsDashed(s) && (|s| > 0 ==> s[0] != '-' && s[|s| - 1] != '-')
  }

  /** The `[a-z0-9]` characters of `s`, in order. */
  function AlnumOnly(s: string): string {
    if |s| == 0 then ""
    else (if IsSlugAlnum(s[0]) then [s[0]] else "") + AlnumOnly(s[1..])
  }

  lemma {:induction false} AlnumOnlyAppend(a: string, b: string)
    ensures AlnumOnly(a + b) == AlnumOnly(a) + AlnumOnly(b)
  {
    if |a| == 0 {
      assert a + b == b;
    } else {
      var head := if IsSlugAlnum(a[0]) then [a[0]] else "";
      assert (a + b)[0] == a[0] && (a + b)[1..] == a[1..] + b;
      calc {
        AlnumOnly(a + b);
        head + AlnumOnly(a[1..] + b);
        { AlnumOnlyAppend(a[1..], b); }
        head + (AlnumOnly(a[1..]) + AlnumOnly(b));
        { Assoc(head, AlnumOnly(a[1..]), AlnumOnly(b)); }
        AlnumOnly(a) + AlnumOnly(b);
      }
    }
  }

  // ---------------------------------------------------------------------
  // The leading run of separators, and the leading word
  // ---------------------------------------------------------------------

  /** Drops the leading run of characters outside `[a-z0-9]`. */
  function SkipSeparators(s: string): (r: string)
    ensures |r| <= |s|
    ensures |s| > 0 && !IsSlugAlnum(s[0]) ==> |r| < |s|
    ensures |r| > 0 ==> IsSlugAlnum(r[0])
  {
    if |s| > 0 && !IsSlugAlnum(s[0]) then SkipSeparators(s[1..]) else s
  }

  /** What `SkipSeparators` keeps is a suffix of its input. */
  lemma {:induction false} SkipIsSuffix(s: string)
    ensures SkipSeparators(s) == s[|s| - |SkipSeparators(s)|..]
  {
    if |s| > 0 && !IsSlugAlnum(s[0]) {
      SkipIsSuffix(s[1..]);
      var r := SkipSeparators(s);
      assert s[1..][|s| - 1 - |r|..] == s[|s| - |r|..];
    }
  }

  /** Everything `SkipSeparators` drops lies outside `[a-z0-9]`. */
  lemma {:induction false} SkipDropsSeparators(s: string)
    ensures forall i :: 0 <= i < |s| - |SkipSeparators(s)| ==> !IsSlugAlnum(s[i])
  {
    if |s| > 0 && !IsSlugAlnum(s[0]) {
      SkipDropsSeparators(s[1..]);
      var n := |s| - |SkipSeparators(s)|;
      forall i | 1 <= i < n
        ensures !IsSlugAlnum(s[i])
      {
        assert s[i] == s[1..][i - 1];
      }
    }
  }

  /** `SkipSeparators` keeps every alphanumeric. */
  lemma {:induction false} SkipKeepsAlnums(s: string)
    ensures AlnumOnly(SkipSeparators(s)) == AlnumOnly(s)
  {
    if |s| > 0 && !IsSlugAlnum(s[0]) {
      SkipKeepsAlnums(s[1..]);
      assert AlnumOnly(s) == "" + AlnumOnly(s[1..]);
    }
  }

  /** The leading run of `[a-z0-9]` characters of `s`. */
  function LeadingWord(s: string): (w: string)
    ensures |w| <= |s|
    ensures |s| > 0 && IsSlugAlnum(s[0]) ==> |w| > 0
  {
    if |s| > 0 && IsSlugAlnum(s[0]) then [s[0]] + LeadingWord(s[1..]) else ""
  }

  /** The leading word is the maximal alphanumeric prefix. */
  lemma {:induction false} LeadingWordIsRun(s: string)
    ensures var w := LeadingWord(s);
            && w == s[..|w|]
            && (forall i :: 0 <= i < |w| ==> IsSlugAlnum(w[i]))
            && (|w| < |s| ==> !IsSlugAlnum(s[|w|]))
  {
    if |s| > 0 && IsSlugAlnum(s[0]) {
      LeadingWordIsRun(s[1..]);
      var w1 := LeadingWord(s[1..]);
      var w := LeadingWord(s);
      assert w == [s[0]] + w1;
      assert w == s[..|w|] by {
        assert s[..|w|] == [s[0]] + s[1..][..|w1|];
      }
      assert forall i :: 1 <= i < |w| ==> w[i] == w1[i - 1];
      assert |w| < |s| ==> s[|w|] == s[1..][|w1|];
    }
  }

  // ---------------------------------------------------------------------
  // The first regular expression
  // ---------------------------------------------------------------------

  /** `replace(/[^a-z0-9]+/g, '-')`: every maximal run of characters outside
      `[a-z0-9]` becomes a single '-'. */
  function CollapseSeparators(s: string): string
    decreases |s|
  {
    if |s| == 0 then ""
    else if IsSlugAlnum(s[0]) then [s[0]] + CollapseSeparators(s[1..])
    else "-" + CollapseSeparators(SkipSeparators(s))
  }

  /** Putting an alphanumeric, or a '-' before something that does not start
      with '-', in front of a dashed string keeps it dashed. */
  lemma DashedCons(c: char, t: string)
    requires IsSlugAlnum(c) || c == '-'
    requires IsDashed(t)
    requires c == '-' && |t| > 0 ==> t[0] != '-'
    ensures IsDashed([c] + t)
  {
    var r := [c] + t;
    assert forall i :: 1 <= i < |r| ==> r[i] == t[i - 1];
  }

  /** The collapse holds only `[a-z0-9-]` with no "--", and a leading
      alphanumeric stays first. */
  lemma {:induction false} CollapseIsDashed(s: string)
    ensures IsDashed(CollapseSeparators(s))
    ensures |s| > 0 && IsSlugAlnum(s[0]) ==>
              |CollapseSeparators(s)| > 0 && CollapseSeparators(s)[0] == s[0]
    decreases |s|
  {
    if |s| > 0 {
      if IsSlugAlnum(s[0]) {
        CollapseIsDashed(s[1..]);
        DashedCons(s[0], CollapseSeparators(s[1..]));
      } else {
        var u := SkipSeparators(s);
        CollapseIsDashed(u);
        assert u == "" ==> CollapseSeparators(u) == "";
        DashedCons('-', CollapseSeparators(u));
      }
    }
  }

  /** The collapse keeps every alphanumeric, in order. */
  lemma {:induction false} CollapseKeepsAlnums(s: string)
    ensures AlnumOnly(CollapseSeparators(s)) == AlnumOnly(s)
    decreases |s|
  {
    if |s| > 0 {
      if IsSlugAlnum(s[0]) {
        var rest := CollapseSeparators(s[1..]);
        CollapseKeepsAlnums(s[1..]);
        AlnumOnlyAppend([s[0]], rest);
        assert AlnumOnly([s[0]]) == [s[0]] + AlnumOnly([]) by {
          assert [s[0]][1..] == [];
        }
        assert AlnumOnly([]) == "";
      } else {
        var u := SkipSeparators(s);
        CollapseKeepsAlnums(u);
        SkipKeepsAlnums(s);
        AlnumOnlyAppend("-", CollapseSeparators(u));
        assert AlnumOnly("-") == "" + AlnumOnly("") by {
          assert "-"[1..] == "";
        }
      }
    }
  }

  // ---------------------------------------------------------------------
  // The second regular expression
  // ---------------------------------------------------------------------

  /** `replace(/(^-|-$)/g, '')`: one '-' is removed at the start and one at the end. */
  function StripEdgeDashes(t: string): string {
    var t1 := if |t| > 0 && t[0] == '-' then t[1..] else t;
    if |t1| > 0 && t1[|t1| - 1] == '-' then t1[..|t1| - 1] else t1
  }

  /** Dropping a leading '-' from a dashed string keeps it dashed, keeps its
      alphanumerics and leaves no '-' in front. */
  lemma {:induction false} DropLeadingDash(t: string)
    requires IsDashed(t) && |t| > 0 && t[0] == '-'
    ensures IsDashed(t[1..]) && AlnumOnly(t[1..]) == AlnumOnly(t)
    ensures |t| > 1 ==> t[1..][0] != '-'
  {
    assert forall i :: 0 <= i < |t| - 1 ==> t[1..][i] == t[i + 1];
  }

  /** Dropping a trailing '-' from a dashed string with no '-' in front
      gives a slug with the same alphanumerics. */
  lemma {:induction false} DropTrailingDash(t: string)
    requires IsDashed(t) && |t| > 0 && t[0] != '-' && t[|t| - 1] == '-'
    ensures IsSlug(t[..|t| - 1]) && AlnumOnly(t[..|t| - 1]) == AlnumOnly(t)
  {
    var u := t[..|t| - 1];
    assert t == u + "-";
    AlnumOnlyAppend(u, "-");
    assert AlnumOnly("-") == "" + AlnumOnly("") by {
      assert "-"[1..] == "";
    }
    if |u| > 0 {
      assert u[|u| - 1] == t[|t| - 2];
    }
  }

  /** Stripping a dashed string yields a slug with the same alphanumerics. */
  lemma {:induction false} StripDashed(t: string)
    requires IsDashed(t)
    ensures IsSlug(StripEdgeDashes(t))
    ensures AlnumOnly(StripEdgeDashes(t)) == AlnumOnly(t)
  {
    var t1 := if |t| > 0 && t[0] == '-' then t[1..] else t;
    if |t| > 0 && t[0] == '-' {
      DropLeadingDash(t);
    }
    assert IsDashed(t1) && AlnumOnly(t1) == AlnumOnly(t) && (|t1| > 0 ==> t1[0] != '-');
    if |t1| > 0 && t1[|t1| - 1] == '-' {
      DropTrailingDash(t1);
    }
  }

  /** The slug generated from a product name. */
  function MakeSlug(name: string): (r: string)
    ensures IsSlug(r)
    ensures AlnumOnly(r) == AlnumOnly(LowerAscii(name))
    ensures r == "" <==> AlnumOnly(LowerAscii(name)) == ""
  {
    var lower := LowerAscii(name);
    var collapsed := CollapseSeparators(lower);
    CollapseIsDashed(lower);
    CollapseKeepsAlnums(lower);
    StripDashed(collapsed);
    var r := StripEdgeDashes(collapsed);
    SlugEmptyIffNoAlnum(r);
    r
  }

  /** A slug is empty exactly when it has no alphanumerics: it cannot start with '-'. */
  lemma {:induction false} SlugEmptyIffNoAlnum(r: string)
    requires IsSlug(r)
    ensures r == "" <==> AlnumOnly(r) == ""
  {
    if r != "" {
      assert IsSlugAlnum(r[0]);
    }
  }

  /** A dashed string is left alone by the separator collapse. */
  lemma {:induction false} CollapseFixesDashed(t: string)
    requires IsDashed(t)
    ensures CollapseSeparators(t) == t
  {
    if |t| > 0 {
      assert IsDashed(t[1..]);
      if IsSlugAlnum(t[0]) {
        CollapseFixesDashed(t[1..]);
      } else {
        assert |t| > 1 ==> IsSlugAlnum(t[1]);
        assert SkipSeparators(t) == t[1..] by {
          assert SkipSeparators(t) == SkipSeparators(t[1..]);
        }
        CollapseFixesDashed(t[1..]);
        assert t == "-" + t[1..];
      }
    }
  }

  /** A slug is its own slug. */
  lemma SlugFixesSlug(t: string)
    requires IsSlug(t)
    ensures MakeSlug(t) == t
  {
    var lower := LowerAscii(t);
    assert lower == t by {
      assert forall i :: 0 <= i < |t| ==> lower[i] == t[i];
    }
    CollapseFixesDashed(t);
    assert StripEdgeDashes(t) == t;
  }

  /** Generating a slug is idempotent. */
  lemma SlugIdempotent(name: string)
    ensures MakeSlug(MakeSlug(name)) == MakeSlug(name)
  {
    SlugFixesSlug(MakeSlug(name));
  }

  // ---------------------------------------------------------------------
  // Reference definition: the slug is the words of the lower-cased name,
  // joined by single dashes.
  // ---------------------------------------------------------------------

  /** A non-empty run of `[a-z0-9]` characters. */
  predicate IsWord(w: string) {
    |w| > 0 && forall i :: 0 <= i < |w| ==> IsSlugAlnum(w[i])
  }

  /** The maximal runs of `[a-z0-9]` characters of `s`, in order. */
  function Words(s: string): seq<string>
    decreases |s|
  {
    var t := SkipSeparators(s);
    if |t| == 0 then []
    else
      var w := LeadingWord(t);
      [w] + Words(t[|w|..])
  }

  /** Every element of `Words(s)` is a word. */
  lemma {:induction false} WordsAreWords(s: string)
    ensures forall i :: 0 <= i < |Words(s)| ==> IsWord(Words(s)[i])
    decreases |s|
  {
    var t := SkipSeparators(s);
    if |t| > 0 {
      var w := LeadingWord(t);
      var ws := Words(t[|w|..]);
      LeadingWordIsRun(t);
      WordsAreWords(t[|w|..]);
      assert Words(s) == [w] + ws;
      assert forall i :: 1 <= i < |[w] + ws| ==> ([w] + ws)[i] == ws[i - 1];
    }
  }

  function JoinWithDash(ws: seq<string>): string {
    if |ws| == 0 then ""
    else if |ws| == 1 then ws[0]
    else ws[0] + "-" + JoinWithDash(ws[1..])
  }

  predicate EndsWithSeparator(s: string) {
    |s| > 0 && !IsSlugAlnum(s[|s| - 1])
  }

  predicate AlnumAtBothEnds(j: string) {
    |j| > 0 && IsSlugAlnum(j[0]) && IsSlugAlnum(j[|j| - 1])
  }

  /** Joined words start and end with an alphanumeric. */
  lemma {:induction false} JoinEnds(ws: seq<string>)
    requires |ws| > 0
    requires forall i :: 0 <= i < |ws| ==> IsWord(ws[i])
    ensures AlnumAtBothEnds(JoinWithDash(ws))
  {
    if |ws| > 1 {
      assert forall i :: 0 <= i < |ws[1..]| ==> ws[1..][i] == ws[i + 1];
      JoinEnds(ws[1..]);
      var j := JoinWithDash(ws);
      var tail := JoinWithDash(ws[1..]);
      assert j == ws[0] + ("-" + tail);
      assert j[0] == ws[0][0];
      assert j[|j| - 1] == tail[|tail| - 1];
    }
  }

  lemma Assoc(a: string, b: string, c: string)
    ensures a + (b + c) == (a + b) + c
  {
  }

  /** The collapse copies the leading word and continues after it. */
  lemma {:induction false} CollapseLeadingWord(s: string)
    ensures CollapseSeparators(s) == LeadingWord(s) + CollapseSeparators(s[|LeadingWord(s)|..])
  {
    if |s| > 0 && IsSlugAlnum(s[0]) {
      var w1 := LeadingWord(s[1..]);
      var c := CollapseSeparators(s[1..][|w1|..]);
      CollapseLeadingWord(s[1..]);
      assert LeadingWord(s) == [s[0]] + w1;
      assert s[1..][|w1|..] == s[|LeadingWord(s)|..];
      calc {
        CollapseSeparators(s);
        [s[0]] + CollapseSeparators(s[1..]);
        [s[0]] + (w1 + c);
        { Assoc([s[0]], w1, c); }
        ([s[0]] + w1) + c;
      }
    } else {
      assert s[0..] == s;
    }
  }

  /** One step of the collapse and of the word split at a leading word. */
  lemma {:induction false} StepOverWord(s: string)
    requires |s| > 0 && IsSlugAlnum(s[0])
    ensures var w := LeadingWord(s);
            && CollapseSeparators(s) == w + CollapseSeparators(s[|w|..])
            && Words(s) == [w] + Words(s[|w|..])
  {
    CollapseLeadingWord(s);
    assert SkipSeparators(s) == s;
  }

  /** One step of the collapse and of the word split at a leading separator. */
  lemma {:induction false} StepOverSeparators(x: string)
    requires |x| > 0 && !IsSlugAlnum(x[0])
    ensures var u := SkipSeparators(x);
            && CollapseSeparators(x) == "-" + CollapseSeparators(u)
            && Words(x) == Words(u)
            && (|u| > 0 ==> EndsWithSeparator(u) == EndsWithSeparator(x))
  {
    var u := SkipSeparators(x);
    assert SkipSeparators(u) == u;
    if |u| > 0 {
      SkipIsSuffix(x);
      assert u[|u| - 1] == x[|x| - 1];
    }
  }

  lemma {:induction false} JoinCons(w: string, ws: seq<string>)
    requires ws != []
    ensures JoinWithDash([w] + ws) == w + "-" + JoinWithDash(ws)
  {
    assert ([w] + ws)[1..] == ws;
  }

  lemma Regroup(w: string, j: string, tail: string)
    ensures w + ("-" + (j + tail)) == (w + "-" + j) + tail
  {
    Assoc("-", j, tail);
    Assoc(w, "-" + j, tail);
    Assoc(w, "-", j);
  }

  /** A non-empty suffix starts where it starts and ends like the whole. */
  lemma {:induction false} RestEndsLikeWhole(s: string, k: nat)
    requires k < |s|
    ensures s[k..][0] == s[k]
    ensures EndsWithSeparator(s[k..]) == EndsWithSeparator(s)
  {
    assert s[k..][|s| - k - 1] == s[|s| - 1];
  }

  /** After the leading word of `s` comes a separator, if anything, and the
      rest ends like `s`. */
  lemma {:induction false} AfterLeadingWord(s: string)
    requires |s[|LeadingWord(s)|..]| > 0
    ensures var rest := s[|LeadingWord(s)|..];
            !IsSlugAlnum(rest[0]) && EndsWithSeparator(rest) == EndsWithSeparator(s)
  {
    LeadingWordIsRun(s);
    RestEndsLikeWhole(s, |LeadingWord(s)|);
  }

  /** A string of separators only collapses to one '-' and has no words. */
  lemma {:induction false} SeparatorsOnly(x: string)
    requires |x| > 0 && !IsSlugAlnum(x[0]) && |SkipSeparators(x)| == 0
    ensures CollapseSeparators(x) == "-" && Words(x) == [] && EndsWithSeparator(x)
  {
    assert CollapseSeparators(SkipSeparators(x)) == "";
    SkipDropsSeparators(x);
    assert !IsSlugAlnum(x[|x| - 1]);
  }

  lemma {:induction false} JoinSingle(w: string)
    ensures JoinWithDash([w]) == w
  {
  }

  /** A string that is a single word collapses to itself. */
  lemma {:induction false} CollapseSingleWord(s: string)
    requires |s| > 0 && IsSlugAlnum(s[0]) && |s[|LeadingWord(s)|..]| == 0
    ensures CollapseSeparators(s) == JoinWithDash(Words(s)) + (if EndsWithSeparator(s) then "-" else "")
  {
    var w := LeadingWord(s);
    assert CollapseSeparators(s) == w + "" && Words(s) == [w] + [] by {
      StepOverWord(s);
      assert CollapseSeparators(s[|w|..]) == "" && Words(s[|w|..]) == [];
    }
    assert w == s && !EndsWithSeparator(s) by {
      LeadingWordIsRun(s);
      assert s[|s| - 1] == w[|w| - 1];
    }
    assert [w] + [] == [w];
    JoinSingle(w);
  }

  /** A word followed only by separators collapses to the word and one '-'. */
  lemma {:induction false} CollapseWordThenSeparators(s: string)
    requires |s| > 0 && IsSlugAlnum(s[0])
    requires var rest := s[|LeadingWord(s)|..]; |rest| > 0 && |SkipSeparators(rest)| == 0
    ensures CollapseSeparators(s) == JoinWithDash(Words(s)) + (if EndsWithSeparator(s) then "-" else "")
  {
    var w := LeadingWord(s);
    var rest := s[|w|..];
    assert CollapseSeparators(s) == w + CollapseSeparators(rest) && Words(s) == [w] + Words(rest) by {
      StepOverWord(s);
    }
    assert !IsSlugAlnum(rest[0]) && EndsWithSeparator(rest) == EndsWithSeparator(s) by {
      AfterLeadingWord(s);
    }
    assert CollapseSeparators(rest) == "-" && Words(rest) == [] && EndsWithSeparator(rest) by {
      SeparatorsOnly(rest);
    }
    assert [w] + [] == [w];
    JoinSingle(w);
  }

  /** A word, separators, then a string `u` that starts with a word: the
      collapse of the whole follows from the collapse of `u`. */
  lemma {:induction false} CollapseWordThenMore(s: string)
    requires |s| > 0 && IsSlugAlnum(s[0])
    requires var u := SkipSeparators(s[|LeadingWord(s)|..]);
             && |s[|LeadingWord(s)|..]| > 0 && |u| > 0
             && CollapseSeparators(u) == JoinWithDash(Words(u)) + (if EndsWithSeparator(u) then "-" else "")
    ensures CollapseSeparators(s) == JoinWithDash(Words(s)) + (if EndsWithSeparator(s) then "-" else "")
  {
    var w := LeadingWord(s);
    var rest := s[|w|..];
    var u := SkipSeparators(rest);
    var tail := if EndsWithSeparator(s) then "-" else "";
    assert CollapseSeparators(s) == w + CollapseSeparators(rest) && Words(s) == [w] + Words(rest) by {
      StepOverWord(s);
    }
    assert !IsSlugAlnum(rest[0]) && EndsWithSeparator(rest) == EndsWithSeparator(s) by {
      AfterLeadingWord(s);
    }
    assert CollapseSeparators(rest) == "-" + CollapseSeparators(u) && Words(rest) == Words(u)
           && EndsWithSeparator(u) == EndsWithSeparator(rest) by {
      StepOverSeparators(rest);
    }
    assert Words(u) != [] by {
      StepOverWord(u);
    }
    Assemble(CollapseSeparators(s), CollapseSeparators(rest), CollapseSeparators(u), w, Words(u), Words(s), tail);
  }

  /** The string algebra behind `CollapseWordThenMore`. */
  lemma {:induction false} Assemble(cs: string, crest: string, cu: string, w: string, ws: seq<string>, all: seq<string>, tail: string)
    requires cs == w + crest && crest == "-" + cu && cu == JoinWithDash(ws) + tail
    requires ws != [] && all == [w] + ws
    ensures cs == JoinWithDash(all) + tail
  {
    calc {
      cs;
      w + ("-" + (JoinWithDash(ws) + tail));
      { Regroup(w, JoinWithDash(ws), tail); }
      (w + "-" + JoinWithDash(ws)) + tail;
      { JoinCons(w, ws); }
      JoinWithDash(all) + tail;
    }
  }

  /** For a string that starts with a word (or is empty), the collapse is its
      words joined by dashes, followed by one '-' when it ends in a separator. */
  lemma {:induction false} CollapseFromWord(s: string)
    requires |s| == 0 || IsSlugAlnum(s[0])
    ensures CollapseSeparators(s) == JoinWithDash(Words(s)) + (if EndsWithSeparator(s) then "-" else "")
    decreases |s|
  {
    if |s| > 0 {
      var rest := s[|LeadingWord(s)|..];
      if |rest| == 0 {
        CollapseSingleWord(s);
      } else if |SkipSeparators(rest)| == 0 {
        CollapseWordThenSeparators(s);
      } else {
        CollapseFromWord(SkipSeparators(rest));
        CollapseWordThenMore(s);
      }
    } else {
      assert Words(s) == [];
    }
  }

  /** Stripping the edge dashes of a collapse that starts with a word leaves
      the joined words. */
  lemma {:induction false} StrippedFromWord(s: string)
    requires |s| == 0 || IsSlugAlnum(s[0])
    ensures StripEdgeDashes(CollapseSeparators(s)) == JoinWithDash(Words(s))
  {
    CollapseFromWord(s);
    if |s| > 0 {
      StepOverWord(s);
      var ws := Words(s);
      assert |ws| > 0;
      WordsAreWords(s);
      JoinEnds(ws);
      StripAfter(JoinWithDash(ws), EndsWithSeparator(s));
    }
  }

  /** A '-' followed by the collapse of a string that starts with a word
      strips to the joined words. */
  lemma {:induction false} StrippedAfterDash(u: string)
    requires |u| > 0 && IsSlugAlnum(u[0])
    ensures StripEdgeDashes("-" + CollapseSeparators(u)) == JoinWithDash(Words(u))
  {
    CollapseFromWord(u);
    StepOverWord(u);
    var ws := Words(u);
    assert |ws| > 0;
    WordsAreWords(u);
    JoinEnds(ws);
    StripAround(JoinWithDash(ws), EndsWithSeparator(u));
  }

  /** The same for a collapse that starts with separators. */
  lemma {:induction false} StrippedFromSeparator(s: string)
    requires |s| > 0 && !IsSlugAlnum(s[0])
    ensures StripEdgeDashes(CollapseSeparators(s)) == JoinWithDash(Words(s))
  {
    var u := SkipSeparators(s);
    StepOverSeparators(s);
    if |u| == 0 {
      NothingButSeparators(s);
    } else {
      StrippedAfterDash(u);
    }
  }

  /** A non-empty string without alphanumerics collapses to "-", which strips to "". */
  lemma {:induction false} NothingButSeparators(s: string)
    requires |s| > 0 && !IsSlugAlnum(s[0]) && SkipSeparators(s) == ""
    ensures StripEdgeDashes(CollapseSeparators(s)) == "" == JoinWithDash(Words(s))
  {
    SeparatorsOnly(s);
  }

  /** The slug is the ASCII words of the lower-cased name joined by single
      dashes: the reference definition the regular expressions implement. */
  lemma {:induction false} SlugIsJoinedWords(name: string)
    ensures MakeSlug(name) == JoinWithDash(Words(LowerAscii(name)))
  {
    var s := LowerAscii(name);
    if |s| > 0 && !IsSlugAlnum(s[0]) {
      StrippedFromSeparator(s);
    } else {
      StrippedFromWord(s);
    }
  }

  lemma StripAround(j: string, trailing: bool)
    requires AlnumAtBothEnds(j)
    ensures StripEdgeDashes("-" + (j + (if trailing then "-" else ""))) == j
  {
    var t := "-" + (j + (if trailing then "-" else ""));
    assert t[1..] == j + (if trailing then "-" else "");
  }

  lemma StripAfter(j: string, trailing: bool)
    requires AlnumAtBothEnds(j)
    ensures StripEdgeDashes(j + (if trailing then "-" else "")) == j
  {
    var t := j + (if trailing then "-" else "");
    assert t[0] == j[0];
    if trailing {
      assert t[..|t| - 1] == j;
    }
  }
}
