/** Logix tag paths such as Program:Main.Cube[1,2].5 (protocol/ethernetip/cip/tag.go):
    splitting at dots outside brackets, parsing each segment, and the EPATH it stands
    for. A tag is the byte string Go sees. */
module TagPath {
  import opened Bytes
  import opened Epath
  import opened Text
  import opened Wrappers

  type Tag = seq<bchar>

  /** How many brackets are open after s; None once a closing one had no partner. */
  function Depth(s: Tag): Option<nat> {
    if s == [] then Some(0)
    else
      var c, d := s[|s| - 1], Depth(s[..|s| - 1]);
      if d.None? then None
      else if c == '[' then Some(d.value + 1)
      else if c == ']' then (if d.value == 0 then None else Some(d.value - 1))
      else d
  }

  predicate Balanced(s: Tag) { Depth(s) == Some(0) }

  /** The dot at position i lies outside all brackets. */
  predicate TopDot(s: Tag, i: nat)
    requires i < |s|
  {
    s[i] == '.' && Depth(s[..i]) == Some(0)
  }

  /** A single segment: balanced, and no dot would split it. */
  ghost predicate Whole(s: Tag) { Balanced(s) && NoTopDot(s) }
  ghost predicate NoTopDot(s: Tag) { forall i | 0 <= i < |s| :: !TopDot(s, i) }

  /** Segments joined with dots. */
  function Join(parts: seq<Tag>): Tag
    requires parts != []
  {
    var last := parts[|parts| - 1];
    if |parts| == 1 then last else Join(parts[..|parts| - 1]) + ['.'] + last
  }

  /** The pieces between the dots outside brackets. */
  function Split(s: Tag): (parts: seq<Tag>)
    ensures parts != []
  {
    if s == [] then [[]]
    else
      var c, before := s[|s| - 1], s[..|s| - 1];
      var parts := Split(before);
      if TopDot(s, |s| - 1) then parts + [[]]
      else parts[|parts| - 1 := parts[|parts| - 1] + [c]]
  }

  /** splitTagSegments: one pass with a start mark and a bracket depth. */
  method SplitSegments(tag: Tag) returns (r: Option<seq<Tag>>)
    ensures r.Some? <==> Balanced(tag)
    ensures r.Some? ==> r.value == Split(tag)
  {
    var parts, start, depth := [], 0, 0;
    for i := 0 to |tag|
      invariant start <= i && Depth(tag[..i]) == Some(depth)
      invariant Split(tag[..i]) == parts + [tag[start..i]]
    {
      ghost var next := tag[..i + 1];
      assert next[..i] == tag[..i] && next[i] == tag[i];
      if tag[i] == '[' {
        depth := depth + 1;
      } else if tag[i] == ']' {
        if depth == 0 {
          StaysUnmatched(tag, i + 1);
          return None;
        }
        depth := depth - 1;
      } else if tag[i] == '.' && depth == 0 {
        parts := parts + [tag[start..i]];
        start := i + 1;
      }
      ExtendLast(tag, i, start);
    }
    assert tag[..|tag|] == tag;
    if depth != 0 {
      return None;
    }
    parts := parts + [tag[start..]];
    return Some(parts);
  }

  lemma ExtendLast(tag: Tag, i: nat, start: nat)
    requires start <= i + 1 <= |tag|
    ensures start <= i ==> tag[start..i] + [tag[i]] == tag[start..i + 1]
    ensures start == i + 1 ==> tag[start..i + 1] == []
  {
  }

  lemma {:induction false} StaysUnmatched(tag: Tag, i: nat)
    requires i <= |tag| && Depth(tag[..i]).None?
    ensures Depth(tag).None?
    decreases |tag|
  {
    if i == |tag| {
      assert tag[..i] == tag;
    } else {
      assert tag[..|tag| - 1][..i] == tag[..i];
      StaysUnmatched(tag[..|tag| - 1], i);
    }
  }

  /** Nothing is lost: joining the pieces gives back the tag, whatever it is. */
  lemma {:induction false} JoinSplit(s: Tag)
    ensures Join(Split(s)) == s
    decreases |s|
  {
    if s != [] {
      var c, before := s[|s| - 1], s[..|s| - 1];
      var parts := Split(before);
      JoinSplit(before);
      assert s == before + [c];
      if TopDot(s, |s| - 1) {
        assert (parts + [[]])[..|parts|] == parts;
      } else {
        JoinLonger(parts, c);
      }
    }
  }

  lemma JoinLonger(parts: seq<Tag>, c: bchar)
    requires parts != []
    ensures Join(parts[|parts| - 1 := parts[|parts| - 1] + [c]]) == Join(parts) + [c]
  {
  }

  /** Every piece of a balanced tag is a whole segment. */
  lemma {:induction false} SplitWhole(s: Tag)
    requires Depth(s).Some?
    ensures var parts := Split(s);
      && (forall i | 0 <= i < |parts| - 1 :: Whole(parts[i]))
      && Depth(parts[|parts| - 1]) == Depth(s) && NoTopDot(parts[|parts| - 1])
    decreases |s|
  {
    if s != [] {
      var c, before := s[|s| - 1], s[..|s| - 1];
      SplitWhole(before);
      var w := Split(before)[|Split(before)| - 1];
      OneLonger(w, c);
    }
  }

  lemma OneLonger(w: Tag, c: bchar)
    ensures (w + [c])[..|w|] == w
    ensures NoTopDot(w) && !(c == '.' && Depth(w) == Some(0)) ==> NoTopDot(w + [c])
  {
    var s := w + [c];
    assert s[..|w|] == w;
    if NoTopDot(w) && !(c == '.' && Depth(w) == Some(0)) {
      forall i | 0 <= i < |s| ensures !TopDot(s, i) {
        if i < |w| {
          assert s[..i] == w[..i];
          assert !TopDot(w, i);
        }
      }
    }
  }

  lemma {:induction false} DepthAppend(s: Tag, w: Tag)
    requires Balanced(s)
    ensures Depth(s + ['.'] + w) == Depth(w)
    decreases |w|
  {
    var all := s + ['.'] + w;
    if w == [] {
      assert all == s + ['.'];
      assert all[..|all| - 1] == s;
    } else {
      DepthAppend(s, w[..|w| - 1]);
      assert all[..|all| - 1] == s + ['.'] + w[..|w| - 1];
    }
  }

  lemma LastOfBoth(a: seq<Tag>, b: seq<Tag>, last: Tag)
    requires b != []
    ensures (a + b)[|a + b| - 1] == b[|b| - 1]
    ensures (a + b)[|a + b| - 1 := last] == a + b[|b| - 1 := last]
    ensures a + b + [[]] == a + (b + [[]])
  {
  }

  /** Behind a balanced tag and a dot, a text splits as it does alone. */
  lemma {:induction false} SplitAppend(s: Tag, w: Tag)
    requires Balanced(s)
    ensures Split(s + ['.'] + w) == Split(s) + Split(w)
    decreases |w|
  {
    var all := s + ['.'] + w;
    if w == [] {
      assert all == s + ['.'];
      assert all[..|all| - 1] == s;
    } else {
      var w', c := w[..|w| - 1], w[|w| - 1];
      SplitAppend(s, w');
      DepthAppend(s, w');
      assert all[..|all| - 1] == s + ['.'] + w';
      var b := Split(w');
      LastOfBoth(Split(s), b, b[|b| - 1] + [c]);
    }
  }

  lemma {:induction false} WholeIsOne(w: Tag)
    requires NoTopDot(w)
    ensures Split(w) == [w]
    decreases |w|
  {
    if w != [] {
      var w', c := w[..|w| - 1], w[|w| - 1];
      assert w == w' + [c];
      forall i | 0 <= i < |w'| ensures !TopDot(w', i) {
        assert w'[..i] == w[..i];
        assert !TopDot(w, i);
      }
      WholeIsOne(w');
      assert !TopDot(w, |w| - 1);
    }
  }

  lemma JoinSnoc(front: seq<Tag>, w: Tag)
    requires front != []
    ensures Join(front + [w]) == Join(front) + ['.'] + w
  {
  }

  lemma OneMore(front: seq<Tag>, w: Tag)
    requires front != [] && Balanced(Join(front)) && Split(Join(front)) == front && Whole(w)
    ensures Balanced(Join(front + [w])) && Split(Join(front + [w])) == front + [w]
  {
    JoinSnoc(front, w);
    WholeIsOne(w);
    SplitAppend(Join(front), w);
    DepthAppend(Join(front), w);
  }

  /** The pieces are determined: a tag joined from whole segments splits into them. */
  lemma {:induction false} SplitJoin(parts: seq<Tag>)
    requires parts != [] && forall i | 0 <= i < |parts| :: Whole(parts[i])
    ensures Balanced(Join(parts)) && Split(Join(parts)) == parts
    decreases |parts|
  {
    var n := |parts| - 1;
    if n == 0 {
      assert parts == [parts[0]];
      WholeIsOne(parts[0]);
    } else {
      SplitJoin(parts[..n]);
      OneMore(parts[..n], parts[n]);
      assert parts[..n] + [parts[n]] == parts;
    }
  }

  // -- one segment

  /** A name and its array indices. */
  datatype Part = Part(name: Tag, indices: seq<u32>)

  function SplitOn(s: string, c: char): seq<string> {
    var i := IndexOf(s, c);
    if i == |s| then [s] else [s[..i]] + SplitOn(s[i + 1..], c)
  }

  function ParseIndex(s: string): Option<u32> {
    var t := TrimSpace(s);
    if AllDigits(t) && ValueOf(t) < 0x1_0000_0000 then Some(ValueOf(t)) else None
  }

  function ParseIndices(parts: seq<string>): Option<seq<u32>> {
    if parts == [] then Some([])
    else
      var before, last := ParseIndices(parts[..|parts| - 1]), ParseIndex(parts[|parts| - 1]);
      if before.None? || last.None? then None else Some(before.value + [last.value])
  }

  function ParseSegment(seg: Tag): Option<Part> {
    var open := IndexOf(seg, '[');
    if open == |seg| then Some(Part(seg, []))
    else if seg[|seg| - 1] != ']' then None
    else
      var inner := seg[open + 1..|seg| - 1];
      var indices := if inner == "" then None else ParseIndices(SplitOn(inner, ','));
      if indices.None? then None else Some(Part(seg[..open], indices.value))
  }

  lemma {:induction false} IndicesFail(parts: seq<string>, i: nat)
    requires i <= |parts| && ParseIndices(parts[..i]).None?
    ensures ParseIndices(parts).None?
    decreases |parts|
  {
    if i == |parts| {
      assert parts[..i] == parts;
    } else {
      assert parts[..|parts| - 1][..i] == parts[..i];
      IndicesFail(parts[..|parts| - 1], i);
    }
  }

  /** parseTagSegment. */
  method ParseTagSegment(seg: Tag) returns (r: Option<Part>)
    ensures r == ParseSegment(seg)
  {
    var open := IndexOf(seg, '[');
    if open == |seg| {
      return Some(Part(seg, []));
    }
    if seg[|seg| - 1] != ']' {
      return None;
    }
    var inner := seg[open + 1..|seg| - 1];
    if inner == "" {
      return None;
    }
    var pieces, indices := SplitOn(inner, ','), [];
    for k := 0 to |pieces|
      invariant ParseIndices(pieces[..k]) == Some(indices)
    {
      assert pieces[..k + 1][..k] == pieces[..k];
      var part := TrimSpace(pieces[k]);
      if !AllDigits(part) || ValueOf(part) >= 0x1_0000_0000 {
        IndicesFail(pieces, k + 1);
        return None;
      }
      indices := indices + [ValueOf(part)];
    }
    assert pieces[..|pieces|] == pieces;
    return Some(Part(seg[..open], indices));
  }

  // -- the whole path

  function Members(indices: seq<u32>): seq<Segment> {
    seq(|indices|, i requires 0 <= i < |indices| => Member(indices[i]))
  }

  /** A number behind a dot is a member, as in a bit of an integer; the first name of a
      tag is a symbol whatever it looks like. */
  predicate IsMember(p: Part, first: bool) { !first && AllDigits(p.name) }

  predicate Spells(p: Part, first: bool) {
    && (p.name != [] || p.indices != [])
    && (IsMember(p, first) ==> ValueOf(p.name) < 0x1_0000_0000)
  }

  function NameSegments(p: Part, first: bool): seq<Segment>
    requires Spells(p, first)
  {
    if p.name == [] then [] else if IsMember(p, first) then [Member(ValueOf(p.name))] else [Symbol(p.name)]
  }

  function Meaning(p: Part, first: bool): seq<Segment>
    requires Spells(p, first)
  {
    NameSegments(p, first) + Members(p.indices)
  }

  /** What the pieces of a tag stand for. */
  function Spell(parts: seq<Tag>): Option<seq<Segment>> {
    if parts == [] then Some([])
    else
      var first := |parts| == 1;
      var before, part := Spell(parts[..|parts| - 1]), ParseSegment(parts[|parts| - 1]);
      if before.None? || part.None? || !Spells(part.value, first) then None
      else Some(before.value + Meaning(part.value, first))
  }

  /** The names and indices a tag spells out; None if the tag is malformed. */
  function Spelled(tag: Tag): Option<seq<Segment>> {
    if tag == [] || !Balanced(tag) then None else Spell(Split(tag))
  }

  lemma {:induction false} SpellFails(parts: seq<Tag>, i: nat)
    requires i <= |parts| && Spell(parts[..i]).None?
    ensures Spell(parts).None?
    decreases |parts|
  {
    if i == |parts| {
      assert parts[..i] == parts;
    } else {
      assert parts[..|parts| - 1][..i] == parts[..i];
      SpellFails(parts[..|parts| - 1], i);
    }
  }

  lemma MembersSnoc(segs: seq<Segment>, indices: seq<u32>, k: nat)
    requires k < |indices|
    ensures Encode(segs + Members(indices[..k + 1]))
         == Encode(segs + Members(indices[..k])) + EncodeSegment(Member(indices[k]))
  {
    MembersLonger(segs, indices, k);
    EncodeSnoc(segs + Members(indices[..k]), Member(indices[k]));
  }

  lemma MembersLonger(segs: seq<Segment>, indices: seq<u32>, k: nat)
    requires k < |indices|
    ensures segs + Members(indices[..k]) + [Member(indices[k])] == segs + Members(indices[..k + 1])
  {
  }

  /** Appends the members of an index list. */
  method AddMembers(path: seq<u8>, ghost segs: seq<Segment>, indices: seq<u32>) returns (p: seq<u8>)
    requires path == Encode(segs)
    ensures p == Encode(segs + Members(indices))
  {
    p := path;
    assert segs + Members([]) == segs;
    for k := 0 to |indices|
      invariant p == Encode(segs + Members(indices[..k]))
    {
      MembersSnoc(segs, indices, k);
      p := AddMember(p, indices[k]);
    }
    assert indices[..|indices|] == indices;
  }

  method AddName(path: seq<u8>, ghost segs: seq<Segment>, part: Part, first: bool) returns (p: seq<u8>)
    requires path == Encode(segs) && Spells(part, first)
    ensures p == Encode(segs + NameSegments(part, first))
  {
    p := path;
    if part.name != [] {
      if !first && AllDigits(part.name) {
        EncodeSnoc(segs, Member(ValueOf(part.name)));
        p := AddMember(p, ValueOf(part.name));
      } else {
        EncodeSnoc(segs, Symbol(part.name));
        p := AddSymbol(p, part.name);
      }
    } else {
      assert segs + [] == segs;
    }
  }

  /** Appends what one piece of the tag stands for. */
  method AddPart(path: seq<u8>, ghost segs: seq<Segment>, piece: Tag, first: bool) returns (r: Option<seq<u8>>)
    requires path == Encode(segs)
    ensures r.Some? <==> ParseSegment(piece).Some? && Spells(ParseSegment(piece).value, first)
    ensures r.Some? ==> r.value == Encode(segs + Meaning(ParseSegment(piece).value, first))
  {
    var part := ParseTagSegment(piece);
    if part.None? || !Spells(part.value, first) {
      return None;
    }
    var p := AddName(path, segs, part.value, first);
    p := AddMembers(p, segs + NameSegments(part.value, first), part.value.indices);
    Regroup(segs, NameSegments(part.value, first), Members(part.value.indices));
    return Some(p);
  }

  lemma SpellSnoc(parts: seq<Tag>, i: nat, segs: seq<Segment>)
    requires i < |parts| && Spell(parts[..i]) == Some(segs)
    ensures Spell(parts[..i + 1]) ==
      var part := ParseSegment(parts[i]);
      if part.None? || !Spells(part.value, i == 0) then None else Some(segs + Meaning(part.value, i == 0))
  {
    assert parts[..i + 1][..i] == parts[..i];
  }

  /** ParseTagPath: the path of an accepted tag encodes exactly what the tag spells. */
  method ParseTagPath(tag: Tag) returns (r: Option<seq<u8>>)
    ensures r.Some? <==> Spelled(tag).Some?
    ensures r.Some? ==> r.value == Encode(Spelled(tag).value)
  {
    if tag == [] {
      return None;
    }
    var split := SplitSegments(tag);
    if split.None? {
      return None;
    }
    var parts := split.value;
    var path: seq<u8> := [];
    ghost var segs: seq<Segment> := [];
    for i := 0 to |parts|
      invariant Spell(parts[..i]) == Some(segs) && path == Encode(segs)
    {
      SpellSnoc(parts, i, segs);
      var p := AddPart(path, segs, parts[i], i == 0);
      if p.None? {
        SpellFails(parts, i + 1);
        return None;
      }
      path := p.value;
      segs := Spell(parts[..i + 1]).value;
    }
    assert parts[..|parts|] == parts;
    return Some(path);
  }

  /** The path of every accepted tag is word-aligned, and a decoder that knows nothing of
      tags reads off exactly the names and indices the tag spelled, if and only if no
      name exceeds 255 bytes. */
  lemma TagDecodes(tag: Tag)
    requires Spelled(tag).Some?
    ensures |Encode(Spelled(tag).value)| % 2 == 0
    ensures Decode(Encode(Spelled(tag).value)) == Spelled(tag) <==> ShortNames(Spelled(tag).value)
  {
    WordAligned(Spelled(tag).value);
    DecodeIff(Spelled(tag).value);
  }
}
