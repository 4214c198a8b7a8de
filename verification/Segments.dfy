/** Cutting a pattern into its segments, as insertion does (router_tree.go). */
module Segments {
  import opened Patterns

  ghost predicate Special(c: char) { c == ':' || c == '*' }

  /** Every segment extends the key of the segments before it by exactly one
      boundary-to-boundary step. */
  ghost predicate WellCut(segs: seq<Segment>) {
    && NonEmptyTexts(segs)
    && (segs != [] ==>
          && WellCut(segs[..|segs| - 1])
          && SegmentStep(SpellAll(segs[..|segs| - 1]), SpellAll(segs)))
  }

  lemma {:induction false} CutAt(segs: seq<Segment>, i: nat)
    requires WellCut(segs) && i < |segs|
    ensures SegmentStep(SpellAll(segs[..i]), SpellAll(segs[..i + 1]))
    ensures SpellAll(segs[..i + 1]) == SpellAll(segs[..i]) + Spell(segs[i])
  {
    var init := segs[..|segs| - 1];
    if i == |init| {
      assert segs[..i + 1] == segs;
    } else {
      CutAt(init, i);
      assert init[..i] == segs[..i] && init[..i + 1] == segs[..i + 1];
    }
  }

  method FindSegmentEnd(path: string) returns (e: nat)
    ensures e == SegmentEnd(path)
  {
    for i := 0 to |path|
      invariant SegmentEnd(path) == i + SegmentEnd(path[i..])
    {
      if path[i] == '/' {
        return i;
      }
      assert path[i..][1..] == path[i + 1..];
    }
    return |path|;
  }

  lemma {:induction false} StaticTokens(a: string, b: string)
    requires forall i :: 0 <= i < |a| ==> !Special(a[i])
    ensures Tokens(a + b) == Bytes(a) + Tokens(b) && CatchName(a + b) == CatchName(b)
  {
    if a == "" {
      assert a + b == b;
    } else {
      StaticTokens(a[1..], b);
      assert (a + b)[1..] == a[1..] + b;
      assert Bytes(a) == [Byte(a[0])] + Bytes(a[1..]);
    }
  }

  lemma PushSegment(segs: seq<Segment>, seg: Segment)
    requires NonEmptyTexts(segs) && seg.text != ""
    ensures NonEmptyTexts(segs + [seg])
    ensures SpellAll(segs + [seg]) == SpellAll(segs) + Spell(seg)
  {
    assert (segs + [seg])[..|segs|] == segs;
  }

  /** A static segment may start at the end of the key q. */
  ghost predicate AtCut(q: Key) {
    q == [] || (|q| >= 2 && q[|q| - 2].Param? && q[|q| - 1].Byte?)
  }

  lemma StepOver(q: Key, seg: Segment)
    requires seg.text != ""
    requires seg.kind.Static? ==> AtCut(q) || (q != [] && q[|q| - 1].Param? && |seg.text| == 1)
    ensures SegmentStep(q, q + Spell(seg))
  {
    var x := q + Spell(seg);
    assert x[..|q|] == q;
    forall i | |q| < i < |x|
      ensures !Boundary(x, i)
    {
      assert seg.kind.Static? && x[i] == Byte(seg.text[i - |q|]) && x[i - 1] == Byte(seg.text[i - 1 - |q|]);
    }
  }

  /** Pushing one segment that starts where the cut so far allows it. */
  lemma PushWellCut(segs: seq<Segment>, seg: Segment, rest: Key)
    requires WellCut(segs) && seg.text != ""
    requires var q := SpellAll(segs);
             seg.kind.Static? ==> AtCut(q) || (q != [] && q[|q| - 1].Param? && |seg.text| == 1)
    ensures WellCut(segs + [seg])
    ensures SpellAll(segs + [seg]) == SpellAll(segs) + Spell(seg)
    ensures SpellAll(segs + [seg]) + rest == SpellAll(segs) + (Spell(seg) + rest)
  {
    PushSegment(segs, seg);
    StepOver(SpellAll(segs), seg);
    WellCutOneMore(segs, seg);
    Regroup(SpellAll(segs), Spell(seg), rest);
  }

  lemma WellCutOneMore(segs: seq<Segment>, seg: Segment)
    requires WellCut(segs) && seg.text != "" && SegmentStep(SpellAll(segs), SpellAll(segs + [seg]))
    ensures WellCut(segs + [seg])
  {
    assert (segs + [seg])[..|segs|] == segs;
  }

  lemma Regroup(a: Key, b: Key, c: Key)
    ensures a + b + c == a + (b + c)
  {
  }

  lemma ParamTokens(s: string)
    requires s != "" && s[0] == ':'
    ensures var e := SegmentEnd(s);
            e > 0 && Tokens(s) == Spell(Segment(ParamKind, s[..e])) + Tokens(s[e..])
  {
    var e := SegmentEnd(s);
    assert s[..e][1..] == s[1..e];
  }

  /** The end of the static text that s starts with. */
  method StaticEnd(s: string) returns (end: nat)
    requires s != "" && !Special(s[0])
    ensures 0 < end <= |s|
    ensures end < |s| ==> Special(s[end])
    ensures Tokens(s) == Bytes(s[..end]) + Tokens(s[end..])
    ensures CatchName(s) == CatchName(s[end..])
  {
    end := |s|;
    for i := 0 to |s|
      invariant end == |s|
      invariant forall j :: 0 <= j < i ==> !Special(s[j])
    {
      if s[i] == ':' || s[i] == '*' {
        end := i;
        break;
      }
    }
    StaticTokens(s[..end], s[end..]);
    assert s[..end] + s[end..] == s;
  }

  /** A parameter and the '/' after it, pushed onto the cut. */
  method CutParam(segs: seq<Segment>, s: string) returns (segs': seq<Segment>, rest: string)
    requires WellCut(segs) && s != "" && s[0] == ':'
    ensures |rest| < |s|
    ensures WellCut(segs') && SpellAll(segs') + Tokens(rest) == SpellAll(segs) + Tokens(s)
    ensures rest == "" || AtCut(SpellAll(segs'))
    ensures segs' != [] && !segs'[|segs'| - 1].kind.CatchAllKind? && CatchName(rest) == CatchName(s)
  {
    var end := FindSegmentEnd(s);
    ParamTokens(s);
    var seg := Segment(ParamKind, s[..end]);
    PushWellCut(segs, seg, Tokens(s[end..]));
    segs', rest := segs + [seg], s[end..];
    if rest != "" && rest[0] == '/' {
      PushSlash(segs', rest);
      segs', rest := segs' + [Segment(Static, "/")], rest[1..];
    }
  }

  lemma PushSlash(segs: seq<Segment>, s: string)
    requires WellCut(segs) && SpellAll(segs) != [] && SpellAll(segs)[|SpellAll(segs)| - 1].Param?
    requires s != "" && s[0] == '/'
    ensures var slash := segs + [Segment(Static, "/")];
      && WellCut(slash) && SpellAll(slash) + Tokens(s[1..]) == SpellAll(segs) + Tokens(s)
      && AtCut(SpellAll(slash)) && CatchName(s[1..]) == CatchName(s)
  {
    StaticTokens("/", s[1..]);
    assert "/" + s[1..] == s;
    PushWellCut(segs, Segment(Static, "/"), Tokens(s[1..]));
  }

  method SplitPath(path: string) returns (segs: seq<Segment>)
    requires path != ""
    ensures WellCut(segs)
    ensures SpellAll(segs) == KeyOf(path)
    ensures segs != [] && segs[|segs| - 1].kind.CatchAllKind? ==> segs[|segs| - 1].text[1..] == CatchName(path[1..])
  {
    if path == "/" {
      return [];
    }
    var rest := path[1..];
    segs := [];
    while rest != ""
      invariant WellCut(segs)
      invariant SpellAll(segs) + Tokens(rest) == KeyOf(path)
      invariant rest == "" || Special(rest[0]) || AtCut(SpellAll(segs))
      invariant CatchName(rest) == CatchName(path[1..])
      invariant segs != [] ==> !segs[|segs| - 1].kind.CatchAllKind?
      decreases |rest|
    {
      if rest[0] == ':' {
        segs, rest := CutParam(segs, rest);
      } else if rest[0] == '*' {
        PushWellCut(segs, Segment(CatchAllKind, rest), []);
        return segs + [Segment(CatchAllKind, rest)];
      } else {
        var end := StaticEnd(rest);
        PushWellCut(segs, Segment(Static, rest[..end]), Tokens(rest[end..]));
        segs, rest := segs + [Segment(Static, rest[..end])], rest[end..];
      }
    }
  }
}
