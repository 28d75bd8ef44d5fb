/** Writing tag paths, as the reference for what the parser of TagPath must read: every
    list of names and indices that can be written down is read back as it was meant. */
module TagRender {
  import opened Bytes
  import opened Epath
  import opened TagPath
  import opened Text
  import opened Wrappers

  /** Free of the three characters that structure a tag. */
  predicate Bare(s: Tag) { '.' !in s && '[' !in s && ']' !in s }

  function Number(n: nat): (s: Tag)
    ensures AllDigits(s) && Bare(s) && ',' !in s
  {
    var s := Digits(n);
    assert forall c | c in s :: IsDigit(c);
    s
  }

  /** Indices separated by commas. */
  function Commas(ids: seq<u32>): Tag
    requires ids != []
  {
    if |ids| == 1 then Number(ids[0]) else Number(ids[0]) + [','] + Commas(ids[1..])
  }

  function Render(p: Part): Tag {
    if p.indices == [] then p.name else p.name + ['['] + Commas(p.indices) + [']']
  }

  function Renders(parts: seq<Part>): seq<Tag> {
    seq(|parts|, i requires 0 <= i < |parts| => Render(parts[i]))
  }

  ghost predicate Writable(parts: seq<Part>) {
    parts != [] && forall i | 0 <= i < |parts| :: Bare(parts[i].name) && Spells(parts[i], i == 0)
  }

  /** What the parts stand for, in order. */
  function Meanings(parts: seq<Part>): seq<Segment>
    requires forall i | 0 <= i < |parts| :: Spells(parts[i], i == 0)
  {
    if parts == [] then []
    else Meanings(parts[..|parts| - 1]) + Meaning(parts[|parts| - 1], |parts| == 1)
  }

  // -- brackets

  lemma {:induction false} DepthBare(s: Tag, w: Tag)
    requires '[' !in w && ']' !in w
    ensures Depth(s + w) == Depth(s)
    decreases |w|
  {
    if w == [] {
      assert s + w == s;
    } else {
      var w' := w[..|w| - 1];
      assert (s + w)[..|s + w| - 1] == s + w';
      assert w[|w| - 1] in w;
      DepthBare(s, w');
    }
  }

  lemma DepthOpen(s: Tag, d: nat)
    requires Depth(s) == Some(d)
    ensures Depth(s + ['[']) == Some(d + 1)
    ensures d > 0 ==> Depth(s + [']']) == Some(d - 1)
  {
  }

  lemma {:induction false} CommasBare(ids: seq<u32>)
    requires ids != []
    ensures Bare(Commas(ids)) && Commas(ids) != []
  {
    if |ids| > 1 { CommasBare(ids[1..]); }
  }

  lemma RenderWhole(p: Part)
    requires Bare(p.name)
    ensures Whole(Render(p))
  {
    DepthBare([], p.name);
    assert [] + p.name == p.name;
    if p.indices != [] {
      var ids := Commas(p.indices);
      CommasBare(p.indices);
      DepthOpen(p.name, 0);
      DepthBare(p.name + ['['], ids);
      DepthOpen(p.name + ['['] + ids, 1);
    }
    assert '.' !in Render(p);
  }

  // -- indices

  function Texts(ids: seq<u32>): seq<string> {
    seq(|ids|, i requires 0 <= i < |ids| => Number(ids[i]))
  }

  lemma SplitFirst(first: Tag, rest: Tag)
    requires ',' !in first
    ensures SplitOn(first + [','] + rest, ',') == [first] + SplitOn(rest, ',')
  {
    var s := first + [','] + rest;
    assert s[..|first|] == first && s[|first| + 1..] == rest;
    IndexIs(s, ',', |first|);
  }

  lemma {:induction false} SplitCommas(ids: seq<u32>)
    requires ids != []
    ensures SplitOn(Commas(ids), ',') == Texts(ids)
    decreases |ids|
  {
    if |ids| == 1 {
      IndexNone(Number(ids[0]), ',');
    } else {
      SplitFirst(Number(ids[0]), Commas(ids[1..]));
      SplitCommas(ids[1..]);
      TextsFirst(ids);
    }
  }

  lemma TextsFirst(ids: seq<u32>)
    requires ids != []
    ensures [Number(ids[0])] + Texts(ids[1..]) == Texts(ids)
  {
  }

  lemma IndexReads(n: u32)
    ensures ParseIndex(Number(n)) == Some(n)
  {
    var s := Number(n);
    assert !IsSpace(s[0]) && !IsSpace(s[|s| - 1]);
    DigitsValue(n);
  }

  /** Blanks around an index do not matter. */
  lemma IndexBlanks(l: string, n: u32, r: string)
    requires (forall i | 0 <= i < |l| :: l[i] == ' ') && forall i | 0 <= i < |r| :: r[i] == ' '
    ensures ParseIndex(l + Digits(n) + r) == Some(n)
  {
    LeadingBlanks(l, Digits(n));
    TrailingBlanks(l + Digits(n), r);
    assert Number(n) == Digits(n);
    IndexReads(n);
  }

  lemma {:induction false} IndicesRead(ids: seq<u32>)
    ensures ParseIndices(Texts(ids)) == Some(ids)
    decreases |ids|
  {
    if ids != [] {
      var n := |ids| - 1;
      assert Texts(ids)[..n] == Texts(ids[..n]);
      IndicesRead(ids[..n]);
      IndexReads(ids[n]);
      assert ids[..n] + [ids[n]] == ids;
    }
  }

  // -- segments and tags

  lemma SegmentReads(p: Part)
    requires Bare(p.name)
    ensures ParseSegment(Render(p)) == Some(p)
  {
    if p.indices == [] {
      IndexNone(p.name, '[');
    } else {
      var seg, ids := Render(p), Commas(p.indices);
      assert seg[..|p.name|] == p.name && seg[|p.name| + 1..|seg| - 1] == ids;
      IndexIs(seg, '[', |p.name|);
      CommasBare(p.indices);
      SplitCommas(p.indices);
      IndicesRead(p.indices);
    }
  }

  lemma {:induction false} SpellReads(parts: seq<Part>)
    requires forall i | 0 <= i < |parts| :: Bare(parts[i].name) && Spells(parts[i], i == 0)
    ensures Spell(Renders(parts)) == Some(Meanings(parts))
    decreases |parts|
  {
    if parts != [] {
      var n := |parts| - 1;
      assert Renders(parts)[..n] == Renders(parts[..n]);
      SpellReads(parts[..n]);
      SegmentReads(parts[n]);
    }
  }

  lemma {:induction false} JoinNonEmpty(parts: seq<Tag>)
    requires parts != [] && parts[0] != []
    ensures Join(parts) != []
    decreases |parts|
  {
  }

  /** Writing a path and reading it gives back every name and index. */
  lemma {:induction false} WrittenIsRead(parts: seq<Part>)
    requires Writable(parts)
    ensures Spelled(Join(Renders(parts))) == Some(Meanings(parts))
  {
    var pieces := Renders(parts);
    forall i | 0 <= i < |pieces| ensures Whole(pieces[i]) {
      RenderWhole(parts[i]);
    }
    SplitJoin(pieces);
    JoinNonEmpty(pieces);
    SpellReads(parts);
  }

  // -- what tags mean, item by item

  /** What stands between two dots: a name, or a number, with its indices. */
  datatype Item = Named(name: Tag, ids: seq<u32>) | Numbered(n: u32, ids: seq<u32>)

  function PartOf(it: Item): Part {
    match it
    case Named(name, ids) => Part(name, ids)
    case Numbered(n, ids) => Part(Digits(n), ids)
  }

  function Parts(items: seq<Item>): seq<Part> { seq(|items|, i requires 0 <= i < |items| => PartOf(items[i])) }

  /** The first is a name; a later name is no number, as that would be taken for one. */
  ghost predicate Proper(items: seq<Item>) {
    && items != [] && items[0].Named?
    && forall i | 0 <= i < |items| && items[i].Named? ::
         Bare(items[i].name) && items[i].name != [] && (i > 0 ==> !AllDigits(items[i].name))
  }

  /** A name is a symbol, a number a member, and so is every index, in the order written. */
  function SegmentsOf(it: Item): seq<Segment> {
    [if it.Named? then Symbol(it.name) else Member(it.n)] + seq(|it.ids|, i requires 0 <= i < |it.ids| => Member(it.ids[i]))
  }

  function AllSegments(items: seq<Item>): seq<Segment> {
    if items == [] then [] else AllSegments(items[..|items| - 1]) + SegmentsOf(items[|items| - 1])
  }

  lemma ItemMeans(it: Item, first: bool)
    requires it.Named? ==> Bare(it.name) && it.name != [] && (!first ==> !AllDigits(it.name))
    requires first ==> it.Named?
    ensures Bare(PartOf(it).name) && Spells(PartOf(it), first) && Meaning(PartOf(it), first) == SegmentsOf(it)
  {
    if it.Numbered? {
      assert Number(it.n) == Digits(it.n);
      DigitsValue(it.n);
    }
  }

  ghost predicate AllSpell(parts: seq<Part>) {
    forall i | 0 <= i < |parts| :: Bare(parts[i].name) && Spells(parts[i], i == 0)
  }

  lemma PartsSpell(items: seq<Item>)
    requires Proper(items)
    ensures AllSpell(Parts(items))
  {
    forall i | 0 <= i < |items| ensures Bare(Parts(items)[i].name) && Spells(Parts(items)[i], i == 0) { ItemMeans(items[i], i == 0); }
  }

  lemma MeaningsSnoc(parts: seq<Part>, p: Part)
    requires AllSpell(parts) && Spells(p, parts == []) && Bare(p.name)
    ensures AllSpell(parts + [p]) && Meanings(parts + [p]) == Meanings(parts) + Meaning(p, parts == [])
  {
    assert (parts + [p])[..|parts|] == parts;
  }

  lemma PartsSnoc(items: seq<Item>, n: nat)
    requires |items| == n + 1
    ensures Parts(items) == Parts(items[..n]) + [PartOf(items[n])]
  {
  }

  lemma {:induction false} ItemsMean(items: seq<Item>)
    requires Proper(items)
    ensures AllSpell(Parts(items)) && Meanings(Parts(items)) == AllSegments(items)
    decreases |items|
  {
    var n := |items| - 1;
    PartsSpell(items);
    ItemMeans(items[n], n == 0);
    PartsSnoc(items, n);
    if n == 0 {
      assert items[..0] == [];
      MeaningsSnoc([], PartOf(items[0]));
    } else {
      assert Proper(items[..n]);
      ItemsMean(items[..n]);
      MeaningsSnoc(Parts(items[..n]), PartOf(items[n]));
    }
  }

  /** Every proper list of names and numbers with their indices, written with dots,
      brackets and commas, is read as these symbols and members in this order. */
  lemma {:induction false} TagMeans(items: seq<Item>)
    requires Proper(items)
    ensures Spelled(Join(Renders(Parts(items)))) == Some(AllSegments(items))
  {
    ItemsMean(items);
    WrittenIsRead(Parts(items));
  }

  lemma OneItem(it: Item)
    ensures Renders(Parts([it])) == [Render(PartOf(it))] && Join([Render(PartOf(it))]) == Render(PartOf(it))
    ensures AllSegments([it]) == SegmentsOf(it)
  {
    assert [it][..0] == [];
    assert AllSegments([it]) == AllSegments([]) + SegmentsOf(it);
  }

  lemma TwoItems(a: Item, b: Item)
    ensures Join(Renders(Parts([a, b]))) == Render(PartOf(a)) + ['.'] + Render(PartOf(b))
    ensures AllSegments([a, b]) == SegmentsOf(a) + SegmentsOf(b)
  {
    OneItem(a);
    assert [a, b][..1] == [a];
    var rs := Renders(Parts([a, b]));
    assert rs[..1] == Renders(Parts([a])) && rs[1] == Render(PartOf(b));
  }

  lemma Plain(it: Item)
    requires it.ids == []
    ensures SegmentsOf(it) == [if it.Named? then Symbol(it.name) else Member(it.n)]
    ensures Render(PartOf(it)) == if it.Named? then it.name else Digits(it.n)
  {
  }

  lemma Dotted(a: Item, b: Item)
    requires a.ids == [] && b.ids == [] && Proper([a, b])
    ensures Spelled(Render(PartOf(a)) + ['.'] + Render(PartOf(b))) == Some([SegmentsOf(a)[0], SegmentsOf(b)[0]])
  {
    TagMeans([a, b]);
    TwoItems(a, b);
    Plain(a);
    Plain(b);
    assert SegmentsOf(a) + SegmentsOf(b) == [SegmentsOf(a)[0], SegmentsOf(b)[0]];
  }

  /** A number behind a dot is a member: the bit of an integer. */
  lemma BitOfTag(name: Tag, n: u32)
    requires Bare(name) && name != []
    ensures Spelled(name + "." + Digits(n)) == Some([Symbol(name), Member(n)])
  {
    Dotted(Named(name, []), Numbered(n, []));
    Plain(Named(name, []));
    Plain(Numbered(n, []));
  }

  /** A name behind a dot is a symbol. */
  lemma FieldOfTag(name: Tag, field: Tag)
    requires Bare(name) && name != [] && Bare(field) && field != [] && !AllDigits(field)
    ensures Spelled(name + "." + field) == Some([Symbol(name), Symbol(field)])
  {
    Dotted(Named(name, []), Named(field, []));
    Plain(Named(name, []));
    Plain(Named(field, []));
  }

  /** A tag that is a number is a symbol all the same. */
  lemma NumberTag(n: nat)
    ensures Spelled(Digits(n)) == Some([Symbol(Digits(n))])
  {
    assert Number(n) == Digits(n);
    TagMeans([Named(Digits(n), [])]);
    OneItem(Named(Digits(n), []));
    Plain(Named(Digits(n), []));
  }

  lemma IndexedText(name: Tag, ids: seq<u32>)
    requires ids != []
    ensures Render(PartOf(Named(name, ids))) == name + ['['] + Commas(ids) + [']']
  {
  }

  /** Indices are members in the order written. */
  lemma IndexedTag(name: Tag, ids: seq<u32>)
    requires Bare(name) && name != [] && ids != []
    ensures var r := Spelled(name + ['['] + Commas(ids) + [']']);
      r.Some? && |r.value| == 1 + |ids| && r.value[0] == Symbol(name) && forall i | 0 <= i < |ids| :: r.value[1 + i] == Member(ids[i])
  {
    var it := Named(name, ids);
    IndexedText(name, ids);
    assert Spelled(Render(PartOf(it))) == Some(SegmentsOf(it)) by {
      TagMeans([it]);
      OneItem(it);
    }
  }
}
