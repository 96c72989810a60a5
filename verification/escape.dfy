/**
 `escapeHtml` (frontend/public/app.js): the five global replaces that make a value safe
 to place in the result table's HTML.
 */
module HtmlEscape {
  import opened Strings

  const AmpEntity := "&amp;"
  const LtEntity := "&lt;"
  const GtEntity := "&gt;"
  const QuotEntity := "&quot;"
  const AposEntity := "&#039;"

  /** `escapeHtml(str)` for a string, the replaces applied in the source's order. Each
      replace removes its character for good, since no entity a later replace inserts
      contains it. */
  function EscapeHtml(s: string): (r: string)
    ensures NoMarkup(r)
    ensures |r| >= |s|
  {
    var amp := ReplaceAll(s, "&", AmpEntity);
    var lt := ReplaceAll(amp, "<", LtEntity);
    var gt := ReplaceAll(lt, ">", GtEntity);
    var quot := ReplaceAll(gt, "\"", QuotEntity);
    var r := ReplaceAll(quot, "'", AposEntity);
    EntitiesLackMarkup();
    ReplaceCharLonger(s, '&', AmpEntity);
    ReplaceCharLonger(amp, '<', LtEntity);
    ReplaceCharLonger(lt, '>', GtEntity);
    ReplaceCharLonger(gt, '"', QuotEntity);
    ReplaceCharLonger(quot, '\'', AposEntity);
    ReplaceCharLacks(amp, '<', LtEntity, '<');
    ReplaceCharLacks(lt, '>', GtEntity, '<');
    ReplaceCharLacks(lt, '>', GtEntity, '>');
    ReplaceCharLacks(gt, '"', QuotEntity, '<');
    ReplaceCharLacks(gt, '"', QuotEntity, '>');
    ReplaceCharLacks(gt, '"', QuotEntity, '"');
    ReplaceCharLacks(quot, '\'', AposEntity, '<');
    ReplaceCharLacks(quot, '\'', AposEntity, '>');
    ReplaceCharLacks(quot, '\'', AposEntity, '"');
    ReplaceCharLacks(quot, '\'', AposEntity, '\'');
    r
  }

  /** Which markup characters each entity is free of. */
  lemma EntitiesLackMarkup()
    ensures Lacks(LtEntity, '<')
    ensures Lacks(GtEntity, '<') && Lacks(GtEntity, '>')
    ensures Lacks(QuotEntity, '<') && Lacks(QuotEntity, '>') && Lacks(QuotEntity, '"')
    ensures Lacks(AposEntity, '<') && Lacks(AposEntity, '>') && Lacks(AposEntity, '"')
    ensures Lacks(AposEntity, '\'')
    ensures "&" == ['&'] && "<" == ['<'] && ">" == ['>'] && "\"" == ['"'] && "'" == ['\'']
  {
  }

  /** The characters HTML gives a meaning to in text and in quoted attributes. */
  predicate IsSpecial(c: char)
  {
    c == '&' || c == '<' || c == '>' || c == '"' || c == '\''
  }

  /** The escape of one character, independently of the replace chain. */
  function EscapeChar(c: char): string
  {
    if c == '&' then AmpEntity
    else if c == '<' then LtEntity
    else if c == '>' then GtEntity
    else if c == '"' then QuotEntity
    else if c == '\'' then AposEntity
    else [c]
  }

  /** Every character replaced by its escape. */
  function EscapeEach(s: string): string
  {
    if s == [] then [] else EscapeChar(s[0]) + EscapeEach(s[1..])
  }

  /** The replace chain distributes over concatenation, since each of its patterns is a
      single character. */
  lemma EscapeHtmlConcat(x: string, y: string)
    ensures EscapeHtml(x + y) == EscapeHtml(x) + EscapeHtml(y)
  {
    ReplaceCharConcat(x, y, '&', AmpEntity);
    var a1, a2 := ReplaceAll(x, "&", AmpEntity), ReplaceAll(y, "&", AmpEntity);
    ReplaceCharConcat(a1, a2, '<', LtEntity);
    var b1, b2 := ReplaceAll(a1, "<", LtEntity), ReplaceAll(a2, "<", LtEntity);
    ReplaceCharConcat(b1, b2, '>', GtEntity);
    var c1, c2 := ReplaceAll(b1, ">", GtEntity), ReplaceAll(b2, ">", GtEntity);
    ReplaceCharConcat(c1, c2, '"', QuotEntity);
    var d1, d2 := ReplaceAll(c1, "\"", QuotEntity), ReplaceAll(c2, "\"", QuotEntity);
    ReplaceCharConcat(d1, d2, '\'', AposEntity);
  }

  /** A one-character pattern replaces a one-character string exactly when they match. */
  lemma ReplaceSingle(c: char, p: char, rep: string)
    ensures ReplaceAll([c], [p], rep) == if c == p then rep else [c]
  {
    assert [c][..1] == [c] && [c][1..] == [];
    if c == p {
      assert ReplaceAll([c], [p], rep) == rep + ReplaceAll([], [p], rep);
    }
  }

  /** No entity holds a character that a later replace of the chain looks for. */
  lemma EntitiesInert()
    ensures forall i :: 0 <= i < |AmpEntity| ==> AmpEntity[i] !in "<>\"'"
    ensures forall i :: 0 <= i < |LtEntity| ==> LtEntity[i] !in ">\"'"
    ensures forall i :: 0 <= i < |GtEntity| ==> GtEntity[i] !in "\"'"
    ensures forall i :: 0 <= i < |QuotEntity| ==> QuotEntity[i] != '\''
  {
  }

  /** On one character the chain produces that character's escape: no entity a replace
      inserts contains a character a later replace looks for. */
  lemma EscapeHtmlChar(c: char)
    ensures EscapeHtml([c]) == EscapeChar(c)
  {
    EntitiesInert();
    ReplaceSingle(c, '&', AmpEntity);
    if c == '&' {
      assert EscapeHtml([c]) == AmpEntity;
    } else {
      ReplaceSingle(c, '<', LtEntity);
      if c == '<' {
        assert EscapeHtml([c]) == LtEntity;
      } else {
        ReplaceSingle(c, '>', GtEntity);
        if c == '>' {
          assert EscapeHtml([c]) == GtEntity;
        } else {
          ReplaceSingle(c, '"', QuotEntity);
          ReplaceSingle(c, '\'', AposEntity);
        }
      }
    }
  }

  /** The replace chain escapes each character on its own. */
  lemma {:induction false} EscapeHtmlPerCharacter(s: string)
    ensures EscapeHtml(s) == EscapeEach(s)
  {
    if s == [] {
      assert EscapeHtml(s) == [];
    } else {
      assert s == [s[0]] + s[1..];
      EscapeHtmlConcat([s[0]], s[1..]);
      EscapeHtmlChar(s[0]);
      EscapeHtmlPerCharacter(s[1..]);
    }
  }

  /** No character that means something to HTML, other than the `&` of an entity. */
  predicate NoMarkup(t: string)
  {
    forall i :: 0 <= i < |t| ==> t[i] != '<' && t[i] != '>' && t[i] != '"' && t[i] != '\''
  }

  /** The escaped text has no markup characters left, is no shorter than the input, and
      equals the input when the input had nothing to escape. */
  lemma {:induction false} EscapeEachProperties(s: string)
    ensures NoMarkup(EscapeEach(s))
    ensures |EscapeEach(s)| >= |s|
    ensures (forall i :: 0 <= i < |s| ==> !IsSpecial(s[i])) ==> EscapeEach(s) == s
  {
    if s != [] {
      EscapeEachProperties(s[1..]);
      var head, rest := EscapeChar(s[0]), EscapeEach(s[1..]);
      assert NoMarkup(head);
      forall i | 0 <= i < |head + rest|
        ensures (head + rest)[i] != '<' && (head + rest)[i] != '>'
        ensures (head + rest)[i] != '"' && (head + rest)[i] != '\''
      {
        if i >= |head| { assert (head + rest)[i] == rest[i - |head|]; }
      }
      if forall i :: 0 <= i < |s| ==> !IsSpecial(s[i]) {
        assert forall i :: 0 <= i < |s[1..]| ==> !IsSpecial(s[1..][i]);
        assert [s[0]] + s[1..] == s;
      }
    }
  }

  lemma EscapeHtmlProperties(s: string)
    ensures NoMarkup(EscapeHtml(s))
    ensures |EscapeHtml(s)| >= |s|
    ensures (forall i :: 0 <= i < |s| ==> !IsSpecial(s[i])) ==> EscapeHtml(s) == s
  {
    EscapeHtmlPerCharacter(s);
    EscapeEachProperties(s);
  }

  /** One of the five entities begins at index `i` of `t`. */
  predicate EntityAt(t: string, i: int)
  {
    OccursAt(t, AmpEntity, i) || OccursAt(t, LtEntity, i) || OccursAt(t, GtEntity, i)
    || OccursAt(t, QuotEntity, i) || OccursAt(t, AposEntity, i)
  }

  /** Every `&` of `t` begins an entity. */
  predicate AmpersandsAreEntities(t: string)
  {
    forall i :: 0 <= i < |t| && t[i] == '&' ==> EntityAt(t, i)
  }

  lemma OccursAfter(h: string, rest: string, pat: string, j: int)
    ensures OccursAt(rest, pat, j) ==> OccursAt(h + rest, pat, |h| + j)
  {
    if OccursAt(rest, pat, j) {
      assert (h + rest)[|h| + j..|h| + j + |pat|] == rest[j..j + |pat|];
    }
  }

  /** The `&` an escaped character may begin with begins its entity. */
  lemma HeadEntities(c: char, rest: string)
    ensures var t := EscapeChar(c) + rest;
            forall i :: 0 <= i < |EscapeChar(c)| && t[i] == '&' ==> EntityAt(t, i)
  {
    var head := EscapeChar(c);
    var t := head + rest;
    assert t[..|head|] == head;
    forall i | 0 <= i < |head| && t[i] == '&'
      ensures EntityAt(t, i)
    {
      assert head[i] == '&';
      assert i == 0 && IsSpecial(c);
      assert t[0..|head|] == head;
    }
  }

  /** Entities found after a prefix are still entities once the prefix is in place. */
  lemma ShiftEntities(h: string, rest: string)
    requires AmpersandsAreEntities(rest)
    ensures var t := h + rest;
            forall i :: |h| <= i < |t| && t[i] == '&' ==> EntityAt(t, i)
  {
    var t := h + rest;
    forall i | |h| <= i < |t| && t[i] == '&'
      ensures EntityAt(t, i)
    {
      var j := i - |h|;
      assert rest[j] == t[i];
      OccursAfter(h, rest, AmpEntity, j);
      OccursAfter(h, rest, LtEntity, j);
      OccursAfter(h, rest, GtEntity, j);
      OccursAfter(h, rest, QuotEntity, j);
      OccursAfter(h, rest, AposEntity, j);
    }
  }

  lemma {:induction false} EscapeEachEntities(s: string)
    ensures AmpersandsAreEntities(EscapeEach(s))
  {
    if s != [] {
      EscapeEachEntities(s[1..]);
      HeadEntities(s[0], EscapeEach(s[1..]));
      ShiftEntities(EscapeChar(s[0]), EscapeEach(s[1..]));
    }
  }

  /** No `&` is left bare: each one the output holds begins an entity. */
  lemma EscapeHtmlEntities(s: string)
    ensures AmpersandsAreEntities(EscapeHtml(s))
  {
    EscapeHtmlPerCharacter(s);
    EscapeEachEntities(s);
  }

  // ---------------------------------------------------------------------------
  // Decoding. Replacing the entities back, `&amp;` last, recovers the input: the
  // escape loses nothing.
  // ---------------------------------------------------------------------------

  /** The entity decoded in step `k` (1 to 5) and the character it stands for. */
  function Entity(k: int): string
  {
    if k == 1 then LtEntity else if k == 2 then GtEntity else if k == 3 then QuotEntity
    else if k == 4 then AposEntity else AmpEntity
  }

  function EntityChar(k: int): char
  {
    if k == 1 then '<' else if k == 2 then '>' else if k == 3 then '"'
    else if k == 4 then '\'' else '&'
  }

  /** The step in which a special character's entity is decoded. */
  function Rank(c: char): int
  {
    if c == '<' then 1 else if c == '>' then 2 else if c == '"' then 3
    else if c == '\'' then 4 else 5
  }

  function Decode(t: string): string
  {
    var lt := ReplaceAll(t, LtEntity, "<");
    var gt := ReplaceAll(lt, GtEntity, ">");
    var quot := ReplaceAll(gt, QuotEntity, "\"");
    var apos := ReplaceAll(quot, AposEntity, "'");
    ReplaceAll(apos, AmpEntity, "&")
  }

  /** A character after the first `k` decoding steps. */
  function Partial(c: char, k: int): string
  {
    if IsSpecial(c) && Rank(c) <= k then [c] else EscapeChar(c)
  }

  function Stage(s: string, k: int): string
  {
    if s == [] then [] else Partial(s[0], k) + Stage(s[1..], k)
  }

  predicate NoAmp(x: string)
  {
    forall i :: 0 <= i < |x| ==> x[i] != '&'
  }

  /** A global replace of an entity consumes a leading copy of it. */
  lemma ReplaceAllLeading(y: string, pat: string, rep: string)
    requires |pat| > 0
    ensures ReplaceAll(pat + y, pat, rep) == rep + ReplaceAll(y, pat, rep)
  {
    var s := pat + y;
    assert s[..|pat|] == pat && s[|pat|..] == y;
  }

  /** A leading block that starts with `&` but differs from the entity at its second
      character, and holds no other `&`, passes through. */
  lemma ReplaceAllOtherEntity(x: string, y: string, pat: string, rep: string)
    requires |pat| >= 2 && pat[0] == '&'
    requires |x| >= 2 && x[0] == '&' && x[1] != pat[1] && NoAmp(x[1..])
    ensures ReplaceAll(x + y, pat, rep) == x + ReplaceAll(y, pat, rep)
  {
    var s := x + y;
    if |s| < |pat| {
      assert ReplaceAll(y, pat, rep) == y;
    } else {
      var w := s[..|pat|];
      assert w[1] == x[1];
      assert w != pat;
      assert s[0] == x[0] && s[1..] == x[1..] + y;
      assert ReplaceAll(s, pat, rep) == [x[0]] + ReplaceAll(x[1..] + y, pat, rep);
      ReplaceAllSkips(x[1..], y, pat, rep);
      assert [x[0]] + x[1..] == x;
    }
  }

  /** How a global replace of an entity treats a leading block that is the entity, holds
      no `&`, or is another entity (one that differs from it in its second character). */
  lemma ReplaceAllBlock(x: string, y: string, pat: string, rep: string)
    requires |pat| >= 2 && pat[0] == '&'
    requires x == pat || NoAmp(x) || (|x| >= 2 && x[0] == '&' && x[1] != pat[1] && NoAmp(x[1..]))
    ensures ReplaceAll(x + y, pat, rep) == (if x == pat then rep else x) + ReplaceAll(y, pat, rep)
  {
    if x == pat {
      ReplaceAllLeading(y, pat, rep);
    } else if NoAmp(x) {
      ReplaceAllSkips(x, y, pat, rep);
    } else {
      ReplaceAllOtherEntity(x, y, pat, rep);
    }
  }

  /** Decoding step `k + 1` turns stage `k` into stage `k + 1`. */
  lemma {:induction false} DecodeStep(s: string, k: int)
    requires 0 <= k < 5
    ensures ReplaceAll(Stage(s, k), Entity(k + 1), [EntityChar(k + 1)]) == Stage(s, k + 1)
  {
    if s != [] {
      var x := Partial(s[0], k);
      DecodeStep(s[1..], k);
      ReplaceAllBlock(x, Stage(s[1..], k), Entity(k + 1), [EntityChar(k + 1)]);
    }
  }

  lemma {:induction false} StageZero(s: string)
    ensures Stage(s, 0) == EscapeEach(s)
  {
    if s != [] {
      StageZero(s[1..]);
    }
  }

  lemma {:induction false} StageFive(s: string)
    ensures Stage(s, 5) == s
  {
    if s != [] {
      StageFive(s[1..]);
      assert [s[0]] + s[1..] == s;
    }
  }

  /** Decoding undoes the escape. */
  lemma EscapeHtmlRoundTrip(s: string)
    ensures Decode(EscapeHtml(s)) == s
  {
    EscapeHtmlPerCharacter(s);
    StageZero(s);
    DecodeStep(s, 0);
    DecodeStep(s, 1);
    DecodeStep(s, 2);
    DecodeStep(s, 3);
    DecodeStep(s, 4);
    StageFive(s);
  }

  /** So two values that escape alike were alike. */
  lemma EscapeHtmlInjective(s: string, t: string)
    requires EscapeHtml(s) == EscapeHtml(t)
    ensures s == t
  {
    EscapeHtmlRoundTrip(s);
    EscapeHtmlRoundTrip(t);
  }
}
