/**
 The output normalizer (`normalizeItems`, backend/server.js): strips Markdown code
 fences from the model's text, parses it as JSON and picks out the candidate list.
 */
module Normalizer {
  import opened Base
  import opened Strings
  import opened JsonValues

  /** A bare Markdown code fence. */
  const Fence := "```"

  /** The language tag of the opening fence, matched without regard to ASCII case. */
  const OpenerTag := "json"

  /** The key of the wrapped form `{"items": [...]}`. */
  const ItemsKey := "items"

  /** ASCII upper-case letters folded to lower case; the `i` flag of a regular expression
      without the `u` flag never folds a character above U+007F onto an ASCII one. */
  function FoldAscii(c: char): char
  {
    if 'A' <= c <= 'Z' then (c as int + 32) as char else c
  }

  /** `w` matches `/```json/i`. */
  predicate IsOpener(w: string)
  {
    && |w| == 7
    && w[0] == '`' && w[1] == '`' && w[2] == '`'
    && forall k :: 0 <= k < 4 ==> FoldAscii(w[3 + k]) == OpenerTag[k]
  }

  /** `s.replace(/```json/gi, "")`: every opener is removed, scanning from the left. */
  function StripOpeners(s: string): (r: string)
    ensures (forall i :: 0 <= i < |s| ==> s[i] != '`') ==> r == s
    decreases |s|
  {
    if |s| < 7 then s
    else if IsOpener(s[..7]) then StripOpeners(s[7..])
    else [s[0]] + StripOpeners(s[1..])
  }

  /** The text handed to `JSON.parse`: openers removed, then bare fences, then trimmed. */
  function Clean(raw: string): (r: string)
    ensures NoFence(r)
  {
    var unfenced := ReplaceAll(StripOpeners(raw), Fence, "");
    FenceRemovalLeavesNoFence(StripOpeners(raw));
    var r := Trim(unfenced);
    var i, j :| TrimWindow(unfenced, i, j) && r == unfenced[i..j];
    NoFenceSlice(unfenced, i, j);
    r
  }

  /** `x` holds no three consecutive backticks. */
  predicate NoFence(x: string)
  {
    forall i :: 0 <= i <= |x| - 3 ==> !OccursAt(x, Fence, i)
  }

  lemma NoFenceSlice(x: string, i: int, j: int)
    requires 0 <= i <= j <= |x| && NoFence(x)
    ensures NoFence(x[i..j])
  {
    forall k | OccursAt(x[i..j], Fence, k)
      ensures false
    {
      var w := x[i..j];
      assert w[k..k + 3][0] == w[k] && w[k..k + 3][1] == w[k + 1] && w[k..k + 3][2] == w[k + 2];
      assert x[i + k] == '`' && x[i + k + 1] == '`' && x[i + k + 2] == '`';
      var v := x[i + k..i + k + 3];
      assert v[0] == x[i + k] && v[1] == x[i + k + 1] && v[2] == x[i + k + 2];
      assert v == Fence;
      assert OccursAt(x, Fence, i + k);
    }
  }

  /** What a removal of bare fences begins with, when `s` does not begin with a fence. */
  lemma {:induction false} FenceRemovalHead(s: string)
    ensures |s| > 0 && s[0] != '`' ==>
              var r := ReplaceAll(s, Fence, ""); |r| > 0 && r[0] == s[0]
    ensures |s| >= 2 && s[0] == '`' && s[1] != '`' ==>
              var r := ReplaceAll(s, Fence, ""); |r| >= 2 && r[0] == '`' && r[1] == s[1]
  {
    if |s| >= 3 {
      assert s[..3][0] == s[0] && s[..3][1] == s[1];
      if s[0] != '`' || s[1] != '`' {
        assert s[..3] != Fence;
      }
      FenceRemovalHead(s[1..]);
    }
  }

  /** Removing bare fences from left to right leaves none behind: the characters a
      removal brings together can never form a new fence. */
  lemma {:induction false} FenceRemovalLeavesNoFence(s: string)
    ensures NoFence(ReplaceAll(s, Fence, ""))
    decreases |s|
  {
    var r := ReplaceAll(s, Fence, "");
    if |s| < 3 {
      forall i ensures !OccursAt(r, Fence, i) { }
    } else if s[..3] == Fence {
      FenceRemovalLeavesNoFence(s[3..]);
      assert r == ReplaceAll(s[3..], Fence, "");
    } else {
      var tail := ReplaceAll(s[1..], Fence, "");
      FenceRemovalLeavesNoFence(s[1..]);
      FenceRemovalHead(s[1..]);
      assert r == [s[0]] + tail;
      forall i | OccursAt(r, Fence, i)
        ensures false
      {
        if i > 0 {
          assert r[i..i + 3] == tail[i - 1..i - 1 + 3];
          assert OccursAt(tail, Fence, i - 1);
        }
      }
    }
  }

  /** An opener begins at position `i` of `s`. */
  predicate OpenerAt(s: string, i: int)
  {
    0 <= i && i + 7 <= |s| && IsOpener(s[i..i + 7])
  }

  /** Opener removal leaves a text in which no `/```json/i` match occurs unchanged, so
      other language tags, such as "```yaml", pass through it. */
  lemma {:induction false} StripOpenersNoOpener(s: string)
    requires forall i :: !OpenerAt(s, i)
    ensures StripOpeners(s) == s
    decreases |s|
  {
    if |s| >= 7 {
      assert !OpenerAt(s, 0) && s[..7] == s[0..0 + 7];
      forall i ensures !OpenerAt(s[1..], i)
      {
        if OpenerAt(s[1..], i) {
          assert s[1..][i..i + 7] == s[i + 1..i + 1 + 7];
          assert OpenerAt(s, i + 1);
        }
      }
      StripOpenersNoOpener(s[1..]);
      assert [s[0]] + s[1..] == s;
    }
  }

  /** Every opener begins with a bare fence, so fence-free text holds no opener. */
  lemma FenceFreeHasNoOpener(s: string)
    requires NoFence(s)
    ensures forall i :: !OpenerAt(s, i)
  {
    forall i | OpenerAt(s, i)
      ensures false
    {
      var w := s[i..i + 7];
      assert s[i..i + 3] == w[..3] == Fence;
      assert OccursAt(s, Fence, i);
    }
  }

  /** Text without a code fence is only trimmed: every other character, single and
      double backticks included, reaches `JSON.parse` unchanged. */
  lemma CleanFenceFree(raw: string)
    requires NoFence(raw)
    ensures Clean(raw) == Trim(raw)
  {
    FenceFreeHasNoOpener(raw);
    StripOpenersNoOpener(raw);
    ReplaceAllNoMatch(raw, Fence, "");
  }

  /** The list a parsed value offers as candidates: the value itself when it is an array,
      or the array under its `items` key. */
  ghost predicate OffersList(v: Json, xs: seq<Json>)
  {
    v == JArr(xs) || (!v.JArr? && Get(v, ItemsKey) == Some(JArr(xs)))
  }

  /** `normalizeItems`: `Returned(Some(xs))` is an array, `Returned(None)` is `null`.
      `parse` is `JSON.parse`, `None` standing for a `SyntaxError`. */
  function Normalize(raw: string, parse: string -> Option<Json>): (r: Outcome<Option<seq<Json>>>)
    ensures parse(Clean(raw)).None? ==> r == Returned(Some([]))
    ensures r.Threw? <==> parse(Clean(raw)) == Some(JNull)
    ensures r.Threw? ==> r.fault == TypeError
    ensures r.Returned? && r.value.Some? && parse(Clean(raw)).Some? ==>
              OffersList(parse(Clean(raw)).value, r.value.value)
    ensures r == Returned(None) <==>
              parse(Clean(raw)).Some? && parse(Clean(raw)).value != JNull
              && forall xs :: !OffersList(parse(Clean(raw)).value, xs)
  {
    match parse(Clean(raw))
    case None => Returned(Some([]))
    case Some(JArr(xs)) =>
      assert OffersList(JArr(xs), xs);
      Returned(Some(xs))
    case Some(JNull) => Threw(TypeError)
    case Some(JObj(fields)) =>
      (match Lookup(fields, ItemsKey)
       case Some(JArr(xs)) =>
         assert OffersList(JObj(fields), xs);
         Returned(Some(xs))
       case _ => Returned(None))
    case Some(_) => Returned(None)  // a string, number or boolean has no `items`
  }

  /** A closing fence never completes an opener, so opener removal passes it through. */
  lemma {:induction false} StripOpenersFence(x: string)
    ensures StripOpeners(x + Fence) == StripOpeners(x) + Fence
    decreases |x|
  {
    var s := x + Fence;
    if |s| >= 7 {
      if |x| >= 7 {
        assert s[..7] == x[..7];
        assert s[7..] == x[7..] + Fence;
      } else {
        assert s[..7][6] == '`';
        assert FoldAscii(s[..7][3 + 3]) != OpenerTag[3];
      }
      assert x == [x[0]] + x[1..];
      assert s == [x[0]] + (x[1..] + Fence);
      assert s[1..] == x[1..] + Fence;
      StripOpenersFence(x[1..]);
      if |x| >= 7 && IsOpener(x[..7]) {
        StripOpenersFence(x[7..]);
      } else {
        assert [x[0]] + x[1..] == x;
      }
    }
  }

  /** A run of backticks, as many as a fence or fewer. */
  predicate ShortTicks(x: string)
  {
    |x| <= 3 && forall i :: 0 <= i < |x| ==> x[i] == '`'
  }

  /** Bare-fence removal on text shorter than a fence, followed by a fence, drops exactly
      that fence. */
  lemma ShortFence(u: string)
    requires |u| < 3
    ensures ReplaceAll(u + Fence, Fence, "") == u
  {
    var s := u + Fence;
    if u == [] {
      assert s == Fence && s[..3] == Fence;
      assert ReplaceAll(s, Fence, "") == "" + ReplaceAll(s[3..], Fence, "");
    } else if ShortTicks(u) {
      assert s[..3] == Fence;
      assert s[3..] == u;
    } else if u[0] != '`' {
      assert s[..3][0] != '`';
      assert s[1..] == u[1..] + Fence;
      ShortFence(u[1..]);
      assert [u[0]] + u[1..] == u;
    } else {
      assert |u| == 2 && u[1] != '`';
      assert s[..3][1] != '`';
      assert s[1..] == u[1..] + Fence;
      ShortFence(u[1..]);
      assert [u[0]] + u[1..] == u;
    }
  }

  /** A closing fence is removed whole, whatever precedes it: removal from the left
      consumes backticks three at a time, so the fence never splits a match of the text. */
  lemma {:induction false} FenceAppendedRemoved(u: string)
    ensures ReplaceAll(u + Fence, Fence, "") == ReplaceAll(u, Fence, "")
    decreases |u|
  {
    var s := u + Fence;
    if |u| < 3 {
      ShortFence(u);
    } else {
      assert s[..3] == u[..3];
      assert s[3..] == u[3..] + Fence;
      assert s[1..] == u[1..] + Fence;
      if u[..3] == Fence {
        FenceAppendedRemoved(u[3..]);
      } else {
        FenceAppendedRemoved(u[1..]);
      }
    }
  }

  /** Wrapping text in an opening fence (in any ASCII case) and a closing fence changes
      nothing about how it normalizes, whatever backticks the text holds itself. */
  lemma FencedLikeBare(opener: string, t: string)
    requires IsOpener(opener)
    ensures Clean(opener + t + Fence) == Clean(t)
    ensures forall parse: string -> Option<Json> ::
              Normalize(opener + t + Fence, parse) == Normalize(t, parse)
  {
    var s := opener + t + Fence;
    assert s[..7] == opener;
    assert s[7..] == t + Fence;
    StripOpenersFence(t);
    assert StripOpeners(s) == StripOpeners(t) + Fence;
    FenceAppendedRemoved(StripOpeners(t));
  }
}
