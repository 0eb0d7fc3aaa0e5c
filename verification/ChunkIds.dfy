/** Deterministic chunk ids, with occurrence numbers for chunks that share a base id. */
module ChunkIds {
  import opened Collections
  import opened Options
  import opened Ordering

  // What a base id is derived from; the hash of the text is in hexadecimal digits.
  datatype Material = Material(source: string, header: string, start: int, end: int, textHash: string)

  datatype Collision = Collision(baseId: string, occurrence: nat, count: nat)

  class ChunkNode {
    const material: Material
    var id: string
    var collision: Option<Collision>

    constructor (material: Material, id: string)
      ensures this.material == material && this.id == id && collision == None
    {
      this.material, this.id, this.collision := material, id, None;
    }
  }

  // ---- Decimal suffixes ----

  const DIGITS := "0123456789"

  function Decimal(n: nat): (r: string)
    ensures r != []
  {
    if n < 10 then [DIGITS[n]] else Decimal(n / 10) + [DIGITS[n % 10]]
  }

  // The number that decimal digits stand for.
  function Value(s: string): int {
    if s == [] then 0 else 10 * Value(s[..|s| - 1]) + (s[|s| - 1] as int - '0' as int)
  }

  // Decimal is the usual notation: it reads back, in digits, without a leading zero.
  lemma {:induction false} DecimalReadsBack(n: nat)
    ensures Value(Decimal(n)) == n && (forall c :: c in Decimal(n) ==> '0' <= c <= '9')
    ensures n > 0 ==> Decimal(n)[0] != '0'
  {
    assert forall k :: 0 <= k < 10 ==> DIGITS[k] as int == '0' as int + k;
    if n < 10 {
      assert Decimal(n)[..0] == [];
    } else {
      DecimalReadsBack(n / 10);
      assert Decimal(n)[..|Decimal(n)| - 1] == Decimal(n / 10);
    }
  }

  lemma DigitsDiffer(a: nat, b: nat)
    requires a < 10 && b < 10 && DIGITS[a] == DIGITS[b]
    ensures a == b
  {
  }

  lemma {:induction false} DecimalIsInjective(a: nat, b: nat)
    requires Decimal(a) == Decimal(b)
    ensures a == b
    decreases a
  {
    var s, t := Decimal(a), Decimal(b);
    assert s[|s| - 1] == DIGITS[a % 10] && t[|t| - 1] == DIGITS[b % 10];
    DigitsDiffer(a % 10, b % 10);
    if a >= 10 {
      assert |s| >= 2;
      assert Decimal(a / 10) == s[..|s| - 1];
      if b >= 10 {
        assert Decimal(b / 10) == t[..|t| - 1];
        DecimalIsInjective(a / 10, b / 10);
      }
    }
  }

  // ---- The base id ----

  // str(n)
  function Str(n: int): string {
    if n < 0 then "-" + Decimal(-n) else Decimal(n)
  }

  // The five fields, a line each; source and header may hold line breaks of their own.
  function Join(m: Material): string {
    m.source + "\n" + m.header + "\n" + Str(m.start) + "\n" + Str(m.end) + "\n" + m.textHash
  }

  function BaseId(hash: string -> string): Material -> string {
    (m: Material) => hash(Join(m))
  }

  predicate OneLine(s: string) {
    '\n' !in s
  }

  lemma {:induction false} DecimalDigits(n: nat)
    ensures forall c :: c in Decimal(n) ==> c in DIGITS
  {
    if n >= 10 {
      DecimalDigits(n / 10);
    }
  }

  lemma StrIsOneLine(n: int)
    ensures OneLine(Str(n))
  {
    DecimalDigits(if n < 0 then -n else n);
  }

  lemma StrReadsBack(n: int)
    ensures if n < 0 then Str(n)[0] == '-' && Value(Str(n)[1..]) == -n else Str(n)[0] != '-' && Value(Str(n)) == n
  {
    DecimalReadsBack(if n < 0 then -n else n);
    assert Str(n)[0] in Str(n);
  }

  lemma StrIsInjective(m: int, n: int)
    requires Str(m) == Str(n)
    ensures m == n
  {
    DecimalDigits(if m < 0 then -m else m);
    DecimalDigits(if n < 0 then -n else n);
    assert Str(m)[0] in Str(m) && Str(n)[0] in Str(n);
    assert m < 0 ==> Str(m)[0] == '-';
    assert n < 0 ==> Str(n)[0] == '-';
    if m < 0 {
      assert Str(m)[1..] == Decimal(-m) && Str(n)[1..] == Decimal(-n);
      DecimalIsInjective(-m, -n);
    } else {
      DecimalIsInjective(m, n);
    }
  }

  // A string determines its last line and what is before it.
  lemma LastLine(a: string, b: string, c: string, d: string)
    requires OneLine(b) && OneLine(d) && a + "\n" + b == c + "\n" + d
    ensures a == c && b == d
  {
    NotLonger(a, b, c, d);
    NotLonger(c, d, a, b);
    assert a == (a + "\n" + b)[..|a|] && c == (c + "\n" + d)[..|c|];
    assert b == (a + "\n" + b)[|a| + 1..] && d == (c + "\n" + d)[|c| + 1..];
  }

  lemma NotLonger(a: string, b: string, c: string, d: string)
    requires OneLine(d) && a + "\n" + b == c + "\n" + d
    ensures |a| <= |c|
  {
    var s := c + "\n" + d;
    assert s[|a|] == (a + "\n" + b)[|a|] == '\n';
    assert forall k :: |c| < k < |s| ==> s[k] in d;
  }

  // What the joined string tells apart: everything but where the source ends.
  lemma JoinTellsApart(m: Material, n: Material)
    requires OneLine(m.textHash) && OneLine(n.textHash)
    ensures Join(m) == Join(n) <==> SameText(m, n) && m.start == n.start && m.end == n.end && m.textHash == n.textHash
  {
    hide OneLine, Str;
    if Join(m) == Join(n) {
      StrIsOneLine(m.start);
      StrIsOneLine(n.start);
      StrIsOneLine(m.end);
      StrIsOneLine(n.end);
      LastLine(Place(m) + "\n" + Str(m.end), m.textHash, Place(n) + "\n" + Str(n.end), n.textHash);
      LastLine(Place(m), Str(m.end), Place(n), Str(n.end));
      LastLine(m.source + "\n" + m.header, Str(m.start), n.source + "\n" + n.header, Str(n.start));
      StrIsInjective(m.start, n.start);
      StrIsInjective(m.end, n.end);
    }
  }

  predicate SameText(m: Material, n: Material) {
    m.source + "\n" + m.header == n.source + "\n" + n.header
  }

  // The first three lines.
  function Place(m: Material): string {
    m.source + "\n" + m.header + "\n" + Str(m.start)
  }

  // With headers of one line it tells all materials apart.
  lemma OneLineHeadersJoin(m: Material, n: Material)
    requires OneLine(m.textHash) && OneLine(n.textHash) && OneLine(m.header) && OneLine(n.header)
    requires Join(m) == Join(n)
    ensures m == n
  {
    JoinTellsApart(m, n);
    LastLine(m.source, m.header, n.source, n.header);
  }

  // ---- The occurrence of a node ----

  // Nodes of a source among the first n.
  function InSource(ms: seq<Material>, source: string, n: nat): nat
    requires n <= |ms|
  {
    if n == 0 then 0 else InSource(ms, source, n - 1) + if ms[n - 1].source == source then 1 else 0
  }

  function LocalOrder(ms: seq<Material>, i: nat): nat
    requires i < |ms|
  {
    InSource(ms, ms[i].source, i)
  }

  datatype Entry = Entry(position: nat, start: int, end: int, order: nat)

  function EntryAt(ms: seq<Material>, i: nat): Entry
    requires i < |ms|
  {
    Entry(i, ms[i].start, ms[i].end, LocalOrder(ms, i))
  }

  // The sort key (start, end, source_local_order); the stable sort leaves ties in list order.
  predicate EntryLeq(a: Entry, b: Entry) {
    a.start < b.start || (a.start == b.start && (a.end < b.end || (a.end == b.end &&
      (a.order < b.order || (a.order == b.order && a.position <= b.position)))))
  }

  lemma EntryOrder()
    ensures Total(EntryLeq) && Transitive(EntryLeq)
  {
  }

  ghost predicate Earlier(ms: seq<Material>, j: nat, i: nat)
    requires i < |ms| && j < |ms|
  {
    j != i && EntryLeq(EntryAt(ms, j), EntryAt(ms, i))
  }

  ghost function EarlierInGroup(ms: seq<Material>, base: Material -> string, i: nat): set<nat>
    requires i < |ms|
  {
    set j: nat | j < |ms| && base(ms[j]) == base(ms[i]) && Earlier(ms, j, i)
  }

  ghost function Occurrence(ms: seq<Material>, base: Material -> string, i: nat): (k: nat)
    requires i < |ms|
    ensures k >= 1
  {
    1 + |EarlierInGroup(ms, base, i)|
  }

  function NumberedId(baseId: string, occurrence: nat): string {
    if occurrence == 1 then baseId else baseId + "-" + Decimal(occurrence)
  }

  ghost function IdAt(ms: seq<Material>, base: Material -> string, i: nat): string
    requires i < |ms|
  {
    NumberedId(base(ms[i]), Occurrence(ms, base, i))
  }

  // "chunk-" and 32 hexadecimal digits.
  ghost predicate FixedLength(base: Material -> string, n: nat) {
    forall m :: |base(m)| == n
  }

  lemma OccurrencesGrow(ms: seq<Material>, base: Material -> string, i: nat, j: nat)
    requires i < |ms| && j < |ms| && base(ms[i]) == base(ms[j]) && Earlier(ms, i, j)
    ensures Occurrence(ms, base, i) < Occurrence(ms, base, j)
  {
    assert i !in EarlierInGroup(ms, base, i) && i in EarlierInGroup(ms, base, j);
    SubsetSize(EarlierInGroup(ms, base, i), EarlierInGroup(ms, base, j));
  }

  lemma NumberedIdsDiffer(a: string, b: string, k: nat, l: nat)
    requires |a| == |b| && (a != b || k != l)
    ensures NumberedId(a, k) != NumberedId(b, l)
  {
    var s, t := NumberedId(a, k), NumberedId(b, l);
    if s == t {
      assert s[..|a|] == a && t[..|b|] == b;
      if k != 1 && l != 1 {
        assert s[|a| + 1..] == Decimal(k) && t[|b| + 1..] == Decimal(l);
        DecimalIsInjective(k, l);
      }
    }
  }

  // Ids are pairwise distinct, even when base ids coincide.
  lemma IdsAreDistinct(ms: seq<Material>, base: Material -> string, length: nat, i: nat, j: nat)
    requires FixedLength(base, length) && i < |ms| && j < |ms| && i != j
    ensures IdAt(ms, base, i) != IdAt(ms, base, j)
  {
    if base(ms[i]) == base(ms[j]) {
      if Earlier(ms, i, j) {
        OccurrencesGrow(ms, base, i, j);
      } else {
        OccurrencesGrow(ms, base, j, i);
      }
    }
    NumberedIdsDiffer(base(ms[i]), base(ms[j]), Occurrence(ms, base, i), Occurrence(ms, base, j));
  }

  // The plain base id goes to the first node of its group, by start, end, place in its source
  // and place in the list.
  lemma BaseIdGoesToFirst(ms: seq<Material>, base: Material -> string, i: nat)
    requires i < |ms|
    ensures
      IdAt(ms, base, i) == base(ms[i]) <==>
      forall j: nat :: j < |ms| && j != i && base(ms[j]) == base(ms[i]) ==> Leads(ms, i, j)
  {
    var earlier := EarlierInGroup(ms, base, i);
    assert IdAt(ms, base, i) == base(ms[i]) <==> Occurrence(ms, base, i) == 1;
    forall j: nat | j < |ms| && j != i ensures Earlier(ms, j, i) <==> !Leads(ms, i, j) {
    }
    if earlier == {} {
      assert Occurrence(ms, base, i) == 1;
      forall j: nat | j < |ms| && j != i && base(ms[j]) == base(ms[i]) ensures Leads(ms, i, j) {
        assert j !in earlier;
      }
    } else {
      var j :| j in earlier;
      assert !Leads(ms, i, j);
    }
  }

  predicate Leads(ms: seq<Material>, i: nat, j: nat)
    requires i < |ms| && j < |ms|
  {
    var a, b := ms[i], ms[j];
    || a.start < b.start
    || (a.start == b.start && a.end < b.end)
    || (a.start == b.start && a.end == b.end && LocalOrder(ms, i) < LocalOrder(ms, j))
    || (a.start == b.start && a.end == b.end && LocalOrder(ms, i) == LocalOrder(ms, j) && i < j)
  }

  // ---- Independence from other sources ----

  // The nodes of one source, in list order.
  ghost function OfSource(ms: seq<Material>, source: string): seq<Material> {
    if ms == [] then []
    else OfSource(ms[..|ms| - 1], source) + if ms[|ms| - 1].source == source then [ms[|ms| - 1]] else []
  }

  lemma LocalOrderRises(ms: seq<Material>, source: string, j: nat, i: nat)
    requires j < i <= |ms| && ms[j].source == source
    ensures InSource(ms, source, j) < InSource(ms, source, i)
  {
    var k := j + 1;
    while k < i
      invariant j < k <= i && InSource(ms, source, j) < InSource(ms, source, k)
    {
      k := k + 1;
    }
  }

  // The nodes of a source before position i are the first of that source.
  lemma {:induction false} PrefixOfSource(ms: seq<Material>, source: string, i: nat)
    requires i <= |ms|
    ensures |OfSource(ms[..i], source)| == InSource(ms, source, i)
    ensures i < |ms| && ms[i].source == source ==>
        InSource(ms, source, i) < |OfSource(ms, source)| && OfSource(ms, source)[InSource(ms, source, i)] == ms[i]
    decreases |ms|, i
  {
    if i < |ms| {
      var front := ms[..|ms| - 1];
      PrefixOfSource(front, source, i);
      SamePrefix(ms, front, source, i);
      assert front[..i] == ms[..i];
    } else {
      assert ms[..i] == ms;
      if i > 0 {
        var front := ms[..i - 1];
        PrefixOfSource(front, source, i - 1);
        SamePrefix(ms, front, source, i - 1);
        assert front[..i - 1] == front;
      }
    }
  }

  lemma SamePrefix(ms: seq<Material>, front: seq<Material>, source: string, i: nat)
    requires front <= ms && i <= |front|
    ensures InSource(ms, source, i) == InSource(front, source, i)
  {
  }

  // A node is told by its material and its place among the nodes of its source.
  datatype Tag = Tag(material: Material, order: nat)

  ghost function TagAt(ms: seq<Material>, i: nat): Tag
    requires i < |ms|
  {
    Tag(ms[i], LocalOrder(ms, i))
  }

  ghost predicate Listed(ms: seq<Material>, t: Tag) {
    t.order < |OfSource(ms, t.material.source)| && OfSource(ms, t.material.source)[t.order] == t.material
  }

  lemma SameListed(xs: seq<Material>, ys: seq<Material>, t: Tag)
    requires OfSource(xs, t.material.source) == OfSource(ys, t.material.source)
    ensures Listed(xs, t) <==> Listed(ys, t)
  {
  }

  lemma TagsDiffer(ms: seq<Material>, i: nat, j: nat)
    requires i < |ms| && j < |ms| && ms[i].source == ms[j].source && LocalOrder(ms, i) == LocalOrder(ms, j)
    ensures i == j
  {
    if i < j {
      LocalOrderRises(ms, ms[i].source, i, j);
    } else if j < i {
      LocalOrderRises(ms, ms[i].source, j, i);
    }
  }

  lemma TagIsListed(ms: seq<Material>, i: nat)
    requires i < |ms|
    ensures Listed(ms, TagAt(ms, i))
  {
    PrefixOfSource(ms, ms[i].source, i);
  }

  lemma {:induction false} ListedTag(ms: seq<Material>, t: Tag) returns (i: nat)
    requires Listed(ms, t)
    ensures i < |ms| && TagAt(ms, i) == t
    decreases |ms|
  {
    var front, last := ms[..|ms| - 1], |ms| - 1;
    if Listed(front, t) {
      i := ListedTag(front, t);
      SamePrefix(ms, front, t.material.source, i);
    } else {
      i := last;
      PrefixOfSource(ms, t.material.source, last);
    }
  }

  ghost function TagsOf(ms: seq<Material>, at: set<nat>): set<Tag>
  {
    set j | j in at && j < |ms| :: TagAt(ms, j)
  }

  lemma {:induction false} TagsSize(ms: seq<Material>, at: set<nat>)
    requires forall j :: j in at ==> j < |ms|
    ensures |TagsOf(ms, at)| == |at|
  {
    hide LocalOrder;
    if at != {} {
      var j :| j in at;
      var rest := at - {j};
      TagsSize(ms, rest);
      if TagAt(ms, j) in TagsOf(ms, rest) {
        var k :| k in rest && TagAt(ms, k) == TagAt(ms, j);
        TagsDiffer(ms, j, k);
      }
      assert TagsOf(ms, at) == TagsOf(ms, rest) + {TagAt(ms, j)};
    }
  }

  // Before, or level with, another one in the sort key.
  predicate KeyBefore(t: Tag, u: Tag) {
    var a, b := t.material, u.material;
    a.start < b.start || (a.start == b.start && (a.end < b.end || (a.end == b.end && t.order < u.order)))
  }

  predicate SameKey(t: Tag, u: Tag) {
    t.material.start == u.material.start && t.material.end == u.material.end && t.order == u.order
  }

  // A node of another source with the same key that happens to be listed earlier.
  ghost predicate TiedBefore(ms: seq<Material>, t: Tag, i: nat)
    requires i < |ms|
  {
    SameKey(t, TagAt(ms, i)) && exists j: nat :: j < i && TagAt(ms, j) == t
  }

  ghost function EarlierTags(ms: seq<Material>, base: Material -> string, i: nat): set<Tag>
    requires i < |ms|
  {
    TagsOf(ms, EarlierInGroup(ms, base, i))
  }

  ghost function GroupTags(ms: seq<Material>, base: Material -> string, baseId: string): set<Tag> {
    TagsOf(ms, Group(ms, base, baseId, |ms|))
  }

  lemma EarlierTag(ms: seq<Material>, base: Material -> string, i: nat, t: Tag)
    requires i < |ms|
    ensures
      t in EarlierTags(ms, base, i) <==>
      && Listed(ms, t) && base(t.material) == base(ms[i])
      && (KeyBefore(t, TagAt(ms, i)) || TiedBefore(ms, t, i))
  {
    hide LocalOrder, Listed;
    if t in EarlierTags(ms, base, i) {
      var j :| j in EarlierInGroup(ms, base, i) && TagAt(ms, j) == t;
      TagIsListed(ms, j);
    }
    if Listed(ms, t) && base(t.material) == base(ms[i]) && KeyBefore(t, TagAt(ms, i)) {
      var j := ListedTag(ms, t);
      assert j in EarlierInGroup(ms, base, i);
    }
    if base(t.material) == base(ms[i]) && TiedBefore(ms, t, i) {
      var j: nat :| j < i && TagAt(ms, j) == t;
      assert j in EarlierInGroup(ms, base, i);
    }
  }

  lemma OccurrenceByTags(ms: seq<Material>, base: Material -> string, i: nat)
    requires i < |ms|
    ensures Occurrence(ms, base, i) == 1 + |EarlierTags(ms, base, i)|
  {
    TagsSize(ms, EarlierInGroup(ms, base, i));
  }

  ghost function Group(ms: seq<Material>, base: Material -> string, baseId: string, n: nat): set<nat>
    requires n <= |ms|
  {
    set j: nat | j < n && base(ms[j]) == baseId
  }

  ghost function GroupSize(ms: seq<Material>, base: Material -> string, i: nat): nat
    requires i < |ms|
  {
    |Group(ms, base, base(ms[i]), |ms|)|
  }

  lemma GroupTag(ms: seq<Material>, base: Material -> string, baseId: string, t: Tag)
    ensures t in GroupTags(ms, base, baseId) <==> Listed(ms, t) && base(t.material) == baseId
  {
    hide LocalOrder, Listed;
    if t in GroupTags(ms, base, baseId) {
      var j :| j in Group(ms, base, baseId, |ms|) && TagAt(ms, j) == t;
      TagIsListed(ms, j);
    }
    if Listed(ms, t) && base(t.material) == baseId {
      var j := ListedTag(ms, t);
      assert j in Group(ms, base, baseId, |ms|);
    }
  }

  // No two different materials of the list share a base id.
  ghost predicate InjectiveOn(base: Material -> string, ms: seq<Material>) {
    forall i, j :: 0 <= i < |ms| && 0 <= j < |ms| && base(ms[i]) == base(ms[j]) ==> ms[i] == ms[j]
  }

  lemma InjectiveTags(ms: seq<Material>, base: Material -> string, i: nat, t: Tag)
    requires InjectiveOn(base, ms) && i < |ms|
    ensures Listed(ms, t) && base(t.material) == base(ms[i]) ==> t.material == ms[i]
    ensures !(base(t.material) == base(ms[i]) && TiedBefore(ms, t, i))
  {
    hide LocalOrder, Listed;
    if Listed(ms, t) && base(t.material) == base(ms[i]) {
      var j := ListedTag(ms, t);
    }
    if base(t.material) == base(ms[i]) && TiedBefore(ms, t, i) {
      var j: nat :| j < i && TagAt(ms, j) == t;
      TagsDiffer(ms, i, j);
    }
  }

  // With no collision among the listed materials, a node's id (and collision count) depends
  // only on the order of the nodes inside its own source, whatever else is listed.
  lemma SourceOrderDecides(xs: seq<Material>, ys: seq<Material>, base: Material -> string, i: nat, j: nat)
    requires InjectiveOn(base, xs) && InjectiveOn(base, ys)
    requires i < |xs| && j < |ys| && xs[i].source == ys[j].source
    requires OfSource(xs, xs[i].source) == OfSource(ys, xs[i].source) && LocalOrder(xs, i) == LocalOrder(ys, j)
    ensures IdAt(xs, base, i) == IdAt(ys, base, j) && GroupSize(xs, base, i) == GroupSize(ys, base, j)
  {
    hide LocalOrder, OfSource, EarlierTags, GroupTags, InjectiveOn, TiedBefore, Listed;
    SameMaterial(xs, ys, i, j);
    forall t ensures t in EarlierTags(xs, base, i) <==> t in EarlierTags(ys, base, j) {
      EarlierTag(xs, base, i, t);
      EarlierTag(ys, base, j, t);
      InjectiveTags(xs, base, i, t);
      InjectiveTags(ys, base, j, t);
      if t.material == xs[i] {
        SameListed(xs, ys, t);
      }
    }
    SameOccurrence(xs, ys, base, i, j);
    var b := base(xs[i]);
    forall t ensures t in GroupTags(xs, base, b) <==> t in GroupTags(ys, base, b) {
      GroupTag(xs, base, b, t);
      GroupTag(ys, base, b, t);
      InjectiveTags(xs, base, i, t);
      InjectiveTags(ys, base, j, t);
      if t.material == xs[i] {
        SameListed(xs, ys, t);
      }
    }
    SameGroupSize(xs, ys, base, i, j);
  }

  lemma SameMaterial(xs: seq<Material>, ys: seq<Material>, i: nat, j: nat)
    requires i < |xs| && j < |ys| && xs[i].source == ys[j].source
    requires OfSource(xs, xs[i].source) == OfSource(ys, xs[i].source) && LocalOrder(xs, i) == LocalOrder(ys, j)
    ensures xs[i] == ys[j] && TagAt(xs, i) == TagAt(ys, j)
  {
    PrefixOfSource(xs, xs[i].source, i);
    PrefixOfSource(ys, xs[i].source, j);
  }

  lemma SameOccurrence(xs: seq<Material>, ys: seq<Material>, base: Material -> string, i: nat, j: nat)
    requires i < |xs| && j < |ys| && xs[i] == ys[j]
    requires forall t :: t in EarlierTags(xs, base, i) <==> t in EarlierTags(ys, base, j)
    ensures IdAt(xs, base, i) == IdAt(ys, base, j)
  {
    hide Occurrence, EarlierTags;
    OccurrenceByTags(xs, base, i);
    OccurrenceByTags(ys, base, j);
    assert EarlierTags(xs, base, i) == EarlierTags(ys, base, j);
  }

  lemma SameGroupSize(xs: seq<Material>, ys: seq<Material>, base: Material -> string, i: nat, j: nat)
    requires i < |xs| && j < |ys| && xs[i] == ys[j]
    requires
      var b := base(xs[i]);
      forall t :: t in GroupTags(xs, base, b) <==> t in GroupTags(ys, base, b)
    ensures GroupSize(xs, base, i) == GroupSize(ys, base, j)
  {
    hide TagsOf;
    var b := base(xs[i]);
    TagsSize(xs, Group(xs, base, b, |xs|));
    TagsSize(ys, Group(ys, base, b, |ys|));
    assert GroupTags(xs, base, b) == GroupTags(ys, base, b);
  }

  // ---- When interleaving does not matter ----

  // The same nodes, interleaved differently: each source has its nodes in the same order.
  ghost predicate SameOrders(xs: seq<Material>, ys: seq<Material>) {
    forall source :: OfSource(xs, source) == OfSource(ys, source)
  }

  // The same node of a source in two interleavings.
  ghost predicate SameNode(xs: seq<Material>, ys: seq<Material>, i: nat, j: nat) {
    && SameOrders(xs, ys) && i < |xs| && j < |ys|
    && xs[i].source == ys[j].source && LocalOrder(xs, i) == LocalOrder(ys, j)
  }

  // Two nodes of different sources that only their places in the list tell apart.
  ghost predicate Tie(ms: seq<Material>, base: Material -> string, i: nat, j: nat) {
    && i < |ms| && j < |ms| && ms[i].source != ms[j].source && base(ms[i]) == base(ms[j])
    && ms[i].start == ms[j].start && ms[i].end == ms[j].end && LocalOrder(ms, i) == LocalOrder(ms, j)
  }

  ghost predicate TieFree(ms: seq<Material>, base: Material -> string) {
    forall i, j :: !Tie(ms, base, i, j)
  }

  lemma NoTiedBefore(xs: seq<Material>, ys: seq<Material>, base: Material -> string, j: nat, t: Tag)
    requires SameOrders(xs, ys) && TieFree(xs, base) && j < |ys| && base(t.material) == base(ys[j])
    ensures !TiedBefore(ys, t, j)
  {
    hide LocalOrder, OfSource;
    if TiedBefore(ys, t, j) {
      var k: nat :| k < j && TagAt(ys, k) == t;
      TagIsListed(ys, k);
      TagIsListed(ys, j);
      var a := ListedTag(xs, t);
      var b := ListedTag(xs, TagAt(ys, j));
      assert !Tie(xs, base, a, b);
      TagsDiffer(ys, k, j);
    }
  }

  lemma HiddenWithoutTies(xs: seq<Material>, ys: seq<Material>, base: Material -> string, i: nat, j: nat)
    requires TieFree(xs, base) && SameNode(xs, ys, i, j)
    ensures IdAt(xs, base, i) == IdAt(ys, base, j)
  {
    hide LocalOrder, OfSource, EarlierTags, TieFree, TiedBefore, Listed;
    SameMaterial(xs, ys, i, j);
    forall t ensures t in EarlierTags(xs, base, i) <==> t in EarlierTags(ys, base, j) {
      EarlierTag(xs, base, i, t);
      EarlierTag(ys, base, j, t);
      SameListed(xs, ys, t);
      if base(t.material) == base(xs[i]) {
        NoTiedBefore(xs, xs, base, i, t);
        NoTiedBefore(xs, ys, base, j, t);
      }
    }
    SameOccurrence(xs, ys, base, i, j);
  }

  ghost function Others(ms: seq<Material>, source: string): seq<Material> {
    if ms == [] then []
    else Others(ms[..|ms| - 1], source) + if ms[|ms| - 1].source == source then [] else [ms[|ms| - 1]]
  }

  lemma {:induction false} OfSourceAppend(a: seq<Material>, b: seq<Material>, source: string)
    ensures OfSource(a + b, source) == OfSource(a, source) + OfSource(b, source)
  {
    if b == [] {
      assert a + b == a;
    } else {
      OfSourceAppend(a, b[..|b| - 1], source);
      assert (a + b)[..|a + b| - 1] == a + b[..|b| - 1];
    }
  }

  lemma LastPart(ms: seq<Material>, source: string)
    requires ms != []
    ensures
      var front, last := ms[..|ms| - 1], ms[|ms| - 1];
      && OfSource(ms, source) == OfSource(front, source) + (if last.source == source then [last] else [])
      && Others(ms, source) == Others(front, source) + (if last.source == source then [] else [last])
      && OfSource([last], source) == if last.source == source then [last] else []
  {
    assert [ms[|ms| - 1]][..0] == [];
  }

  lemma {:induction false} Parted(ms: seq<Material>, first: string, source: string)
    ensures OfSource(OfSource(ms, first), source) == if source == first then OfSource(ms, first) else []
    ensures OfSource(Others(ms, first), source) == if source == first then [] else OfSource(ms, source)
  {
    if ms != [] {
      var front, last := ms[..|ms| - 1], ms[|ms| - 1];
      Parted(front, first, source);
      PartedStep(ms, first, source);
    }
  }

  lemma PartedStep(ms: seq<Material>, first: string, source: string)
    requires ms != []
    requires
      var front := ms[..|ms| - 1];
      && OfSource(OfSource(front, first), source) == (if source == first then OfSource(front, first) else [])
      && OfSource(Others(front, first), source) == if source == first then [] else OfSource(front, source)
    ensures OfSource(OfSource(ms, first), source) == if source == first then OfSource(ms, first) else []
    ensures OfSource(Others(ms, first), source) == if source == first then [] else OfSource(ms, source)
  {
    hide OfSource, Others;
    var front, last := ms[..|ms| - 1], ms[|ms| - 1];
    LastPart(ms, first);
    LastPart(ms, source);
    OfSourceAppend(OfSource(front, first), [last], source);
    OfSourceAppend(Others(front, first), [last], source);
    if last.source == first {
      assert Others(ms, first) == Others(front, first);
      assert last.source != source ==> OfSource(ms, source) == OfSource(front, source);
    } else {
      assert OfSource(ms, first) == OfSource(front, first);
      assert last.source != source ==> OfSource(ms, source) == OfSource(front, source);
    }
  }

  lemma {:induction false} PartedElements(ms: seq<Material>, first: string)
    ensures |OfSource(ms, first)| + |Others(ms, first)| == |ms|
    ensures forall k :: 0 <= k < |OfSource(ms, first)| ==> OfSource(ms, first)[k].source == first
    ensures forall k :: 0 <= k < |Others(ms, first)| ==> Others(ms, first)[k].source != first
  {
    if ms != [] {
      PartedElements(ms[..|ms| - 1], first);
    }
  }

  // All nodes of one source first, or last.
  ghost function First(ms: seq<Material>, source: string): seq<Material> {
    OfSource(ms, source) + Others(ms, source)
  }

  ghost function Last(ms: seq<Material>, source: string): seq<Material> {
    Others(ms, source) + OfSource(ms, source)
  }

  lemma PartedOrder(ms: seq<Material>, first: string, source: string)
    ensures OfSource(First(ms, first), source) == OfSource(ms, source)
    ensures OfSource(Last(ms, first), source) == OfSource(ms, source)
  {
    hide OfSource, Others;
    Parted(ms, first, source);
    OfSourceAppend(OfSource(ms, first), Others(ms, first), source);
    OfSourceAppend(Others(ms, first), OfSource(ms, first), source);
  }

  lemma PartedSameOrders(ms: seq<Material>, first: string)
    ensures SameOrders(ms, First(ms, first)) && SameOrders(ms, Last(ms, first))
  {
    hide OfSource, First, Last;
    forall source
      ensures OfSource(ms, source) == OfSource(First(ms, first), source) == OfSource(Last(ms, first), source)
    {
      PartedOrder(ms, first, source);
    }
  }

  // The places of a node and of one it is tied with, when the node's source comes first, or last.
  lemma PartedPlaces(ms: seq<Material>, first: string, i: nat, j: nat)
    ensures
      var xs := First(ms, first);
      |xs| == |ms| && (i < |xs| && j < |xs| && xs[i].source == first && xs[j].source != first ==> i < j)
    ensures
      var xs := Last(ms, first);
      |xs| == |ms| && (i < |xs| && j < |xs| && xs[i].source == first && xs[j].source != first ==> j < i)
  {
    PartedElements(ms, first);
  }

  // The node that is tied is numbered later when the other source comes first.
  lemma TiesShow(xs: seq<Material>, ys: seq<Material>, base: Material -> string, i: nat, j: nat, u: nat)
    requires SameNode(xs, ys, i, j) && Tie(ys, base, j, u) && u < j
    requires forall k: nat :: k < |xs| && xs[k].source != xs[i].source ==> i < k
    ensures IdAt(xs, base, i) != IdAt(ys, base, j)
  {
    hide LocalOrder, OfSource, EarlierTags, IdAt;
    SameMaterial(xs, ys, i, j);
    var before, after := EarlierTags(xs, base, i), EarlierTags(ys, base, j);
    forall t | t in before ensures t in after && t != TagAt(ys, u) {
      EarlierTag(xs, base, i, t);
      EarlierTag(ys, base, j, t);
      SameListed(xs, ys, t);
      FirstIsNotTied(xs, i, t);
    }
    TagIsListed(ys, u);
    EarlierTag(ys, base, j, TagAt(ys, u));
    assert TagAt(ys, u) in after;
    SubsetSize(before, after);
    OccurrenceByTags(xs, base, i);
    OccurrenceByTags(ys, base, j);
    DifferentOccurrences(xs, ys, base, i, j);
  }

  lemma FirstIsNotTied(xs: seq<Material>, i: nat, t: Tag)
    requires i < |xs| && forall k: nat :: k < |xs| && xs[k].source != xs[i].source ==> i < k
    ensures !TiedBefore(xs, t, i)
  {
    hide LocalOrder;
    if TiedBefore(xs, t, i) {
      var k: nat :| k < i && TagAt(xs, k) == t;
      TagsDiffer(xs, k, i);
    }
  }

  lemma DifferentOccurrences(xs: seq<Material>, ys: seq<Material>, base: Material -> string, i: nat, j: nat)
    requires i < |xs| && j < |ys| && xs[i] == ys[j] && Occurrence(xs, base, i) != Occurrence(ys, base, j)
    ensures IdAt(xs, base, i) != IdAt(ys, base, j)
  {
    hide Occurrence;
    NumberedIdsDiffer(base(xs[i]), base(ys[j]), Occurrence(xs, base, i), Occurrence(ys, base, j));
  }

  // A tie shows: the node has one id when its source comes first, another when it comes last.
  lemma TieShowsInterleaving(ms: seq<Material>, base: Material -> string, i: nat, j: nat) returns (a: nat, b: nat)
    requires Tie(ms, base, i, j)
    ensures
      var first, last := First(ms, ms[i].source), Last(ms, ms[i].source);
      && SameNode(ms, first, i, a) && SameNode(ms, last, i, b)
      && IdAt(first, base, a) != IdAt(last, base, b)
  {
    hide LocalOrder, OfSource, First, Last, IdAt;
    var own := ms[i].source;
    var first, last := First(ms, own), Last(ms, own);
    PartedSameOrders(ms, own);
    a := Follow(ms, first, i);
    b := Follow(ms, last, i);
    var u := Follow(ms, last, j);
    forall k: nat | k < |first| && first[k].source != own ensures a < k {
      PartedPlaces(ms, own, a, k);
    }
    PartedPlaces(ms, own, b, u);
    SameOrdersTwo(ms, first, last);
    TiesShow(first, last, base, a, b, u);
  }

  lemma SameOrdersTwo(ms: seq<Material>, xs: seq<Material>, ys: seq<Material>)
    requires SameOrders(ms, xs) && SameOrders(ms, ys)
    ensures SameOrders(xs, ys)
  {
  }

  // Where a node is found in another interleaving.
  lemma Follow(xs: seq<Material>, ys: seq<Material>, i: nat) returns (j: nat)
    requires SameOrders(xs, ys) && i < |xs|
    ensures SameNode(xs, ys, i, j) && xs[i] == ys[j]
  {
    hide LocalOrder, OfSource;
    TagIsListed(xs, i);
    j := ListedTag(ys, TagAt(xs, i));
  }

  // All nodes of a list keep their ids in every interleaving of its sources if and only if no
  // two nodes of different sources share base id, span and place within their source.
  lemma InterleavingIsHiddenIff(xs: seq<Material>, base: Material -> string)
    ensures
      (forall ys, i, j :: SameNode(xs, ys, i, j) ==> IdAt(xs, base, i) == IdAt(ys, base, j))
      <==> TieFree(xs, base)
  {
    hide IdAt, LocalOrder, SameOrders, OfSource, First, Last;
    if TieFree(xs, base) {
      forall ys, i, j | SameNode(xs, ys, i, j) ensures IdAt(xs, base, i) == IdAt(ys, base, j) {
        HiddenWithoutTies(xs, ys, base, i, j);
      }
    } else {
      var i, j :| Tie(xs, base, i, j);
      var a, b := TieShowsInterleaving(xs, base, i, j);
    }
  }

  // Collision counts do not show the interleaving at all.
  lemma GroupSizeIsHidden(xs: seq<Material>, ys: seq<Material>, base: Material -> string, i: nat, j: nat)
    requires SameNode(xs, ys, i, j)
    ensures GroupSize(xs, base, i) == GroupSize(ys, base, j)
  {
    hide LocalOrder, OfSource, GroupTags, GroupSize, Listed;
    SameMaterial(xs, ys, i, j);
    var b := base(xs[i]);
    forall t ensures t in GroupTags(xs, base, b) <==> t in GroupTags(ys, base, b) {
      GroupTag(xs, base, b, t);
      GroupTag(ys, base, b, t);
      SameListed(xs, ys, t);
    }
    SameGroupSize(xs, ys, base, i, j);
  }

  // ---- With the base id of the code ----

  // The hash tells the joined strings of the list apart.
  ghost predicate NoCollision(hash: string -> string, ms: seq<Material>) {
    forall i, j :: 0 <= i < |ms| && 0 <= j < |ms| && hash(Join(ms[i])) == hash(Join(ms[j])) ==>
      Join(ms[i]) == Join(ms[j])
  }

  // Two nodes of different sources whose source and header make the same two or more lines.
  ghost predicate Confusable(ms: seq<Material>, i: nat, j: nat) {
    && i < |ms| && j < |ms| && ms[i].source != ms[j].source && SameText(ms[i], ms[j])
    && ms[i].start == ms[j].start && ms[i].end == ms[j].end && ms[i].textHash == ms[j].textHash
    && LocalOrder(ms, i) == LocalOrder(ms, j)
  }

  // So the ids of the code hide the interleaving if and only if no two nodes are confusable.
  lemma IdsHideInterleavingIff(hash: string -> string, xs: seq<Material>)
    requires NoCollision(hash, xs) && forall m :: m in xs ==> OneLine(m.textHash)
    ensures
      (forall ys, i, j :: SameNode(xs, ys, i, j) ==> IdAt(xs, BaseId(hash), i) == IdAt(ys, BaseId(hash), j))
      <==> forall i, j :: !Confusable(xs, i, j)
  {
    hide IdAt, LocalOrder, SameNode, OneLine, Join, SameText;
    InterleavingIsHiddenIff(xs, BaseId(hash));
    forall i: nat, j: nat | i < |xs| && j < |xs| ensures Tie(xs, BaseId(hash), i, j) <==> Confusable(xs, i, j) {
      assert xs[i] in xs && xs[j] in xs;
      JoinTellsApart(xs[i], xs[j]);
    }
  }

  // Headers of one line are enough: then all ids depend on the order within a source alone.
  lemma OneLineHeadersHide(hash: string -> string, ms: seq<Material>)
    requires NoCollision(hash, ms) && forall m :: m in ms ==> OneLine(m.header) && OneLine(m.textHash)
    ensures InjectiveOn(BaseId(hash), ms) && TieFree(ms, BaseId(hash))
  {
    hide Join, LocalOrder;
    forall i, j | 0 <= i < |ms| && 0 <= j < |ms| && hash(Join(ms[i])) == hash(Join(ms[j])) ensures ms[i] == ms[j] {
      assert ms[i] in ms && ms[j] in ms;
      OneLineHeadersJoin(ms[i], ms[j]);
    }
  }

  // Source "x\ny" with header "z", and source "x" with header "y\nz".
  function EarlyBreak(start: int, end: int, textHash: string): Material {
    Material("x\ny", "z", start, end, textHash)
  }

  function LateBreak(start: int, end: int, textHash: string): Material {
    Material("x", "y\nz", start, end, textHash)
  }

  // Whatever the hash, these two share a base id, and the id of the first shows which is listed
  // first.
  lemma LineBreaksShowInterleaving(hash: string -> string, start: int, end: int, textHash: string)
    requires OneLine(textHash)
    ensures
      var a, b := EarlyBreak(start, end, textHash), LateBreak(start, end, textHash);
      && SameNode([a, b], [b, a], 0, 1)
      && IdAt([a, b], BaseId(hash), 0) != IdAt([b, a], BaseId(hash), 1)
  {
    var a, b := EarlyBreak(start, end, textHash), LateBreak(start, end, textHash);
    assert "x\ny" + "\n" + "z" == "x" + "\n" + "y\nz";
    JoinTellsApart(a, b);
    assert |a.source| != |b.source|;
    CollidingSourcesShowInterleaving(BaseId(hash), a, b);
  }

  // Two nodes, of two sources with one base id and span, in both orders.
  lemma CollidingSourcesShowInterleaving(base: Material -> string, a: Material, b: Material)
    requires base(a) == base(b) && a.source != b.source && a.start == b.start && a.end == b.end
    ensures SameNode([a, b], [b, a], 0, 1)
    ensures IdAt([a, b], base, 0) != IdAt([b, a], base, 1)
  {
    var ab, ba := [a, b], [b, a];
    assert ab[..1] == [a] && ba[..1] == [b] && [a][..0] == [] && [b][..0] == [];
    assert InSource(ab, a.source, 0) == 0 && InSource(ba, a.source, 1) == 0;
    assert InSource(ba, b.source, 0) == 0 && InSource(ab, b.source, 1) == 0;
    forall source ensures OfSource(ab, source) == OfSource(ba, source) {
      assert OfSource([a], source) == if a.source == source then [a] else [];
      assert OfSource([b], source) == if b.source == source then [b] else [];
    }
    assert EarlierInGroup(ab, base, 0) == {};
    assert EarlierInGroup(ba, base, 1) == {0};
    NumberedIdsDiffer(base(a), base(a), 1, 2);
  }

  // ---- The assignment ----

  // The entries of a group among the first n nodes, in list order.
  function GroupEntries(ms: seq<Material>, base: Material -> string, baseId: string, n: nat): seq<Entry>
    requires n <= |ms|
  {
    if n == 0 then []
    else GroupEntries(ms, base, baseId, n - 1) + if base(ms[n - 1]) == baseId then [EntryAt(ms, n - 1)] else []
  }

  // Exactly the entries of the group's nodes.
  ghost predicate OfGroup(ms: seq<Material>, base: Material -> string, baseId: string, n: nat, entries: seq<Entry>)
    requires n <= |ms|
  {
    && (forall e :: e in entries ==> e.position < n && base(ms[e.position]) == baseId && e == EntryAt(ms, e.position))
    && (forall i: nat :: i < n && base(ms[i]) == baseId ==> EntryAt(ms, i) in entries)
  }

  lemma {:induction false} GroupMembers(ms: seq<Material>, base: Material -> string, baseId: string, n: nat)
    requires n <= |ms|
    ensures OfGroup(ms, base, baseId, n, GroupEntries(ms, base, baseId, n))
  {
    if n > 0 {
      GroupMembers(ms, base, baseId, n - 1);
    }
  }

  lemma {:induction false} GroupCount(ms: seq<Material>, base: Material -> string, baseId: string, n: nat)
    requires n <= |ms|
    ensures |GroupEntries(ms, base, baseId, n)| == |Group(ms, base, baseId, n)|
  {
    if n == 0 {
      assert Group(ms, base, baseId, n) == {};
    } else {
      GroupCount(ms, base, baseId, n - 1);
      if base(ms[n - 1]) == baseId {
        assert Group(ms, base, baseId, n) == Group(ms, base, baseId, n - 1) + {n - 1};
      } else {
        assert Group(ms, base, baseId, n) == Group(ms, base, baseId, n - 1);
      }
    }
  }

  lemma {:induction false} GroupOnce(ms: seq<Material>, base: Material -> string, baseId: string, n: nat)
    requires n <= |ms|
    ensures forall e :: multiset(GroupEntries(ms, base, baseId, n))[e] <= 1
  {
    if n > 0 {
      GroupOnce(ms, base, baseId, n - 1);
      GroupMembers(ms, base, baseId, n - 1);
      assert EntryAt(ms, n - 1) !in GroupEntries(ms, base, baseId, n - 1);
    }
  }

  // A sorted group lists its nodes by occurrence.
  ghost predicate Ranked(ms: seq<Material>, base: Material -> string, baseId: string, sorted: seq<Entry>) {
    && |sorted| == |Group(ms, base, baseId, |ms|)|
    && (forall k :: 0 <= k < |sorted| ==>
          sorted[k].position < |ms| && base(ms[sorted[k].position]) == baseId &&
              Occurrence(ms, base, sorted[k].position) == k + 1)
    && (forall i: nat :: i < |ms| && base(ms[i]) == baseId ==>
        Occurrence(ms, base, i) <= |sorted| && sorted[Occurrence(ms, base, i) - 1].position == i)
  }

  function PositionsOf(entries: seq<Entry>): set<nat> {
    set e | e in entries :: e.position
  }

  ghost predicate DistinctPositions(entries: seq<Entry>) {
    forall k, l :: 0 <= k < l < |entries| ==> entries[k].position != entries[l].position
  }

  lemma {:induction false} CountPositions(entries: seq<Entry>, k: nat)
    requires DistinctPositions(entries) && k <= |entries|
    ensures |PositionsOf(entries[..k])| == k
  {
    if k > 0 {
      CountPositions(entries, k - 1);
      assert entries[..k] == entries[..k - 1] + [entries[k - 1]];
      assert PositionsOf(entries[..k]) == PositionsOf(entries[..k - 1]) + {entries[k - 1].position};
    }
  }

  lemma OccurrenceInSorted(ms: seq<Material>, base: Material -> string, baseId: string, sorted: seq<Entry>, k: nat)
    requires SortedBy(sorted, EntryLeq) && DistinctPositions(sorted) && k < |sorted| &&
        OfGroup(ms, base, baseId, |ms|, sorted)
    ensures sorted[k].position < |ms| && base(ms[sorted[k].position]) == baseId &&
        Occurrence(ms, base, sorted[k].position) == k + 1
  {
    var p := sorted[k].position;
    assert sorted[k] in sorted;
    forall j: nat ensures j in EarlierInGroup(ms, base, p) <==> j in PositionsOf(sorted[..k]) {
      if j in EarlierInGroup(ms, base, p) {
        var l :| 0 <= l < |sorted| && sorted[l] == EntryAt(ms, j);
        assert l < k by {
          if l > k {
            Antisymmetric(sorted[k], sorted[l]);
          }
        }
        assert sorted[l] in sorted[..k];
      }
      if j in PositionsOf(sorted[..k]) {
        var l :| 0 <= l < k && sorted[l].position == j;
        assert sorted[l] in sorted;
      }
    }
    assert EarlierInGroup(ms, base, p) == PositionsOf(sorted[..k]);
    CountPositions(sorted, k);
  }

  lemma Antisymmetric(a: Entry, b: Entry)
    requires EntryLeq(a, b) && EntryLeq(b, a)
    ensures a == b
  {
  }

  lemma SortedGroup(ms: seq<Material>, base: Material -> string, baseId: string)
    ensures
      var sorted := Sort(GroupEntries(ms, base, baseId, |ms|), EntryLeq);
      SortedBy(sorted, EntryLeq) && DistinctPositions(sorted) && OfGroup(ms, base, baseId, |ms|, sorted) &&
          |sorted| == |Group(ms, base, baseId, |ms|)|
  {
    hide Group, GroupEntries, Sort, Insert, SortedBy;
    var entries := GroupEntries(ms, base, baseId, |ms|);
    GroupMembers(ms, base, baseId, |ms|);
    GroupCount(ms, base, baseId, |ms|);
    GroupOnce(ms, base, baseId, |ms|);
    EntryOrder();
    SortSorts(entries, EntryLeq);
    SortElements(entries, EntryLeq);
    OncePerPosition(ms, base, baseId, Sort(entries, EntryLeq));
  }

  lemma OncePerPosition(ms: seq<Material>, base: Material -> string, baseId: string, entries: seq<Entry>)
    requires OfGroup(ms, base, baseId, |ms|, entries) && forall e :: multiset(entries)[e] <= 1
    ensures DistinctPositions(entries)
  {
    forall k, l | 0 <= k < l < |entries| ensures entries[k].position != entries[l].position {
      Twice(entries, k, l);
      assert entries[k] in entries && entries[l] in entries;
    }
  }

  lemma SortRanks(ms: seq<Material>, base: Material -> string, baseId: string)
    ensures
      var sorted := Sort(GroupEntries(ms, base, baseId, |ms|), EntryLeq);
      Ranked(ms, base, baseId, sorted) && |sorted| == |Group(ms, base, baseId, |ms|)|
  {
    hide *;
    SortedGroup(ms, base, baseId);
    RanksOf(ms, base, baseId, Sort(GroupEntries(ms, base, baseId, |ms|), EntryLeq));
  }

  lemma RanksOf(ms: seq<Material>, base: Material -> string, baseId: string, sorted: seq<Entry>)
    requires SortedBy(sorted, EntryLeq) && DistinctPositions(sorted) && OfGroup(ms, base, baseId, |ms|, sorted)
    requires |sorted| == |Group(ms, base, baseId, |ms|)|
    ensures Ranked(ms, base, baseId, sorted)
  {
    hide Occurrence, Group, SortedBy, DistinctPositions, EntryLeq, OfGroup;
    forall k | 0 <= k < |sorted|
      ensures sorted[k].position < |ms| && base(ms[sorted[k].position]) == baseId
      ensures Occurrence(ms, base, sorted[k].position) == k + 1
    {
      OccurrenceInSorted(ms, base, baseId, sorted, k);
    }
    forall i: nat | i < |ms| && base(ms[i]) == baseId
        ensures Occurrence(ms, base, i) <= |sorted| && sorted[Occurrence(ms, base, i) - 1].position == i {
      FoundByOccurrence(ms, base, baseId, sorted, i);
    }
  }

  lemma FoundByOccurrence(ms: seq<Material>, base: Material -> string, baseId: string, sorted: seq<Entry>, i: nat)
    requires SortedBy(sorted, EntryLeq) && DistinctPositions(sorted) && OfGroup(ms, base, baseId, |ms|, sorted)
    requires i < |ms| && base(ms[i]) == baseId
    ensures Occurrence(ms, base, i) <= |sorted| && sorted[Occurrence(ms, base, i) - 1].position == i
  {
    hide Occurrence, EntryLeq, SortedBy, DistinctPositions;
    assert EntryAt(ms, i) in sorted;
    var k :| 0 <= k < |sorted| && sorted[k] == EntryAt(ms, i);
    OccurrenceInSorted(ms, base, baseId, sorted, k);
  }

  // What the dictionaries of the first loop hold after n nodes.
  ghost predicate OrdersAfter(ms: seq<Material>, orders: map<string, nat>, n: nat)
    requires n <= |ms|
  {
    forall source :: InSource(ms, source, n) == if source in orders then orders[source] else 0
  }

  ghost predicate GroupsAfter(ms: seq<Material>, base: Material -> string, grouped: map<string, seq<Entry>>, n: nat)
    requires n <= |ms|
  {
    && (forall b :: GroupEntries(ms, base, b, n) == if b in grouped then grouped[b] else [])
    && (forall j :: 0 <= j < n ==> base(ms[j]) in grouped)
  }

  lemma NoneYet(ms: seq<Material>, base: Material -> string)
    ensures OrdersAfter(ms, map[], 0) && GroupsAfter(ms, base, map[], 0)
  {
  }

  lemma InGroups(ms: seq<Material>, base: Material -> string, grouped: map<string, seq<Entry>>, baseId: string)
    requires GroupsAfter(ms, base, grouped, |ms|) && baseId in grouped
    ensures grouped[baseId] == GroupEntries(ms, base, baseId, |ms|)
  {
  }

  lemma AllGrouped(ms: seq<Material>, base: Material -> string, grouped: map<string, seq<Entry>>)
    requires GroupsAfter(ms, base, grouped, |ms|)
    ensures forall j :: 0 <= j < |ms| ==> base(ms[j]) in grouped
  {
  }

  lemma OrdersStep(ms: seq<Material>, orders: map<string, nat>, n: nat)
    requires n < |ms| && OrdersAfter(ms, orders, n)
    ensures LocalOrder(ms, n) == if ms[n].source in orders then orders[ms[n].source] else 0
    ensures OrdersAfter(ms, orders[ms[n].source := LocalOrder(ms, n) + 1], n + 1)
  {
  }

  lemma OneMore(ms: seq<Material>, base: Material -> string, c: string, n: nat)
    requires n < |ms|
    ensures
      GroupEntries(ms, base, c, n + 1)
      == GroupEntries(ms, base, c, n) + if base(ms[n]) == c then [EntryAt(ms, n)] else []
  {
  }

  lemma GroupsStep(ms: seq<Material>, base: Material -> string, grouped: map<string, seq<Entry>>, n: nat)
    requires n < |ms| && GroupsAfter(ms, base, grouped, n)
    ensures
      var b := base(ms[n]);
      GroupsAfter(ms, base, grouped[b := (if b in grouped then grouped[b] else []) + [EntryAt(ms, n)]], n + 1)
  {
    hide EntryAt, GroupEntries;
    var b := base(ms[n]);
    var grouped' := grouped[b := (if b in grouped then grouped[b] else []) + [EntryAt(ms, n)]];
    forall c ensures GroupEntries(ms, base, c, n + 1) == if c in grouped' then grouped'[c] else [] {
      OneMore(ms, base, c, n);
      assert GroupEntries(ms, base, c, n) == if c in grouped then grouped[c] else [];
    }
  }

  // The first loop: source-local orders, and the groups by base id.
  method GroupNodes(ms: seq<Material>, base: Material -> string) returns (grouped: map<string, seq<Entry>>)
    ensures GroupsAfter(ms, base, grouped, |ms|)
  {
    hide OrdersAfter, GroupsAfter, InSource;
    grouped := map[];
    var orders: map<string, nat> := map[];
    var i := 0;
    NoneYet(ms, base);
    while i < |ms|
      invariant 0 <= i <= |ms|
      invariant OrdersAfter(ms, orders, i) && GroupsAfter(ms, base, grouped, i)
    {
      OrdersStep(ms, orders, i);
      GroupsStep(ms, base, grouped, i);
      var m := ms[i];
      var order := if m.source in orders then orders[m.source] else 0;
      orders := orders[m.source := order + 1];
      var b := base(m);
      grouped := grouped[b := (if b in grouped then grouped[b] else []) + [Entry(i, m.start, m.end, order)]];
      i := i + 1;
    }
  }

  function Materials(nodes: seq<ChunkNode>): (ms: seq<Material>)
    ensures |ms| == |nodes| && forall i :: 0 <= i < |ms| ==> ms[i] == nodes[i].material
  {
    seq(|nodes|, i requires 0 <= i < |nodes| => nodes[i].material)
  }

  ghost predicate Numbered(node: ChunkNode, ms: seq<Material>, base: Material -> string, i: nat)
    requires i < |ms|
    reads node
  {
    && node.id == (if Occurrence(ms, base, i) == 1 then base(ms[i])
                   else base(ms[i]) + "-" + Decimal(Occurrence(ms, base, i)))
    && (GroupSize(ms, base, i) > 1 ==>
        node.collision == Some(Collision(base(ms[i]), Occurrence(ms, base, i), GroupSize(ms, base, i))))
  }

  lemma AtRank(ms: seq<Material>, base: Material -> string, baseId: string, sorted: seq<Entry>, k: nat)
    requires Ranked(ms, base, baseId, sorted) && k < |sorted|
    ensures sorted[k].position < |ms| && base(ms[sorted[k].position]) == baseId
    ensures IdAt(ms, base, sorted[k].position) == NumberedId(baseId, k + 1) &&
        GroupSize(ms, base, sorted[k].position) == |sorted|
    ensures forall i: nat :: i < |ms| && base(ms[i]) == baseId ==>
        (Occurrence(ms, base, i) == k + 1 <==> i == sorted[k].position)
  {
    hide Occurrence, Group, NumberedId;
  }

  lemma AllRanked(ms: seq<Material>, base: Material -> string, baseId: string, sorted: seq<Entry>)
    requires Ranked(ms, base, baseId, sorted)
    ensures forall i: nat :: i < |ms| && base(ms[i]) == baseId ==> 1 <= Occurrence(ms, base, i) <= |sorted|
  {
    hide Occurrence;
  }

  // The node at position i has the number of one of its positions; it has only one unless
  // the same object is listed twice.
  ghost predicate Named(nodes: seq<ChunkNode>, ms: seq<Material>, base: Material -> string, i: nat)
    requires i < |nodes| == |ms|
    reads nodes
  {
    exists j: nat :: j < |ms| && nodes[j] == nodes[i] && Numbered(nodes[i], ms, base, j)
  }

  // The second loop's body: numbers the nodes of one group.
  method NumberGroup(nodes: seq<ChunkNode>, base: Material -> string, baseId: string, sorted: seq<Entry>)
    requires Ranked(Materials(nodes), base, baseId, sorted)
    modifies nodes
    ensures forall i :: 0 <= i < |nodes| && base(nodes[i].material) == baseId ==>
        Named(nodes, Materials(nodes), base, i)
    ensures forall i :: 0 <= i < |nodes| && (base(nodes[i].material) != baseId || |sorted| == 1) ==>
        nodes[i].collision == old(nodes[i].collision)
    ensures forall i :: 0 <= i < |nodes| && old(Named(nodes, Materials(nodes), base, i)) ==>
        Named(nodes, Materials(nodes), base, i)
  {
    hide Occurrence, NumberedId, Ranked, IdAt, GroupSize, Named;
    ghost var ms := Materials(nodes);
    AllRanked(ms, base, baseId, sorted);
    var k := 0;
    while k < |sorted|
      invariant 0 <= k <= |sorted|
      invariant forall i :: 0 <= i < |nodes| && base(ms[i]) == baseId && Occurrence(ms, base, i) <= k ==>
          Named(nodes, ms, base, i)
      invariant forall i :: 0 <= i < |nodes| && (base(ms[i]) != baseId || |sorted| == 1) ==>
          nodes[i].collision == old(nodes[i].collision)
      invariant forall i :: 0 <= i < |nodes| && old(Named(nodes, ms, base, i)) ==> Named(nodes, ms, base, i)
    {
      AtRank(ms, base, baseId, sorted, k);
      NumberNode(nodes, base, baseId, sorted[k].position, k + 1, |sorted|);
      k := k + 1;
    }
  }

  // One turn of that loop: the node at a position gets the number of that position.
  method NumberNode(nodes: seq<ChunkNode>, base: Material -> string, baseId: string, position: nat, occurrence: nat,
          count: nat)
    requires position < |nodes| && base(nodes[position].material) == baseId
    requires occurrence == Occurrence(Materials(nodes), base, position) &&
        count == GroupSize(Materials(nodes), base, position)
    modifies nodes[position]
    ensures Named(nodes, Materials(nodes), base, position)
    ensures forall i :: 0 <= i < |nodes| && old(Named(nodes, Materials(nodes), base, i)) ==>
        Named(nodes, Materials(nodes), base, i)
    ensures count == 1 ==> nodes[position].collision == old(nodes[position].collision)
  {
    hide Occurrence, GroupSize;
    ghost var ms := Materials(nodes);
    var node := nodes[position];
    node.id := NumberedId(baseId, occurrence);
    if count > 1 {
      node.collision := Some(Collision(baseId, occurrence, count));
    }
    assert Numbered(node, ms, base, position);
    forall i | 0 <= i < |nodes| && old(Named(nodes, ms, base, i)) ensures Named(nodes, ms, base, i) {
      if nodes[i] != node {
        var j: nat :| j < |ms| && nodes[j] == nodes[i] && old(Numbered(nodes[i], ms, base, j));
        assert Numbered(nodes[i], ms, base, j);
      }
    }
  }

  // assign_deterministic_chunk_ids; the hash is "chunk-" and the first half of SHA-256 in hexadecimal.
  method AssignIds(nodes: seq<ChunkNode>, hash: string -> string)
    modifies nodes
    ensures forall i :: 0 <= i < |nodes| ==> Named(nodes, Materials(nodes), BaseId(hash), i)
    ensures forall i :: 0 <= i < |nodes| && GroupSize(Materials(nodes), BaseId(hash), i) == 1 ==>
        nodes[i].collision == old(nodes[i].collision)
  {
    AssignWith(nodes, BaseId(hash));
  }

  method AssignWith(nodes: seq<ChunkNode>, base: Material -> string)
    modifies nodes
    ensures forall i :: 0 <= i < |nodes| ==> Named(nodes, Materials(nodes), base, i)
    ensures forall i :: 0 <= i < |nodes| && GroupSize(Materials(nodes), base, i) == 1 ==>
        nodes[i].collision == old(nodes[i].collision)
  {
    hide GroupsAfter, Ranked, IdAt, Occurrence, Group, Sort, EntryLeq, GroupEntries, Named;
    var ms := Materials(nodes);
    var grouped := GroupNodes(ms, base);
    AllGrouped(ms, base, grouped);
    var todo := grouped.Keys;
    while todo != {}
      invariant todo <= grouped.Keys
      invariant forall i :: 0 <= i < |nodes| && base(ms[i]) !in todo ==> Named(nodes, ms, base, i)
      invariant forall i :: 0 <= i < |nodes| && (base(ms[i]) in todo || GroupSize(ms, base, i) == 1) ==>
          nodes[i].collision == old(nodes[i].collision)
    {
      var baseId :| baseId in todo;
      var sorted := Sort(grouped[baseId], EntryLeq);
      InGroups(ms, base, grouped, baseId);
      SortRanks(ms, base, baseId);
      NumberGroup(nodes, base, baseId, sorted);
      todo := todo - {baseId};
    }
  }

  // So different node objects end with different ids.
  lemma NodesHaveDistinctIds(nodes: seq<ChunkNode>, base: Material -> string, length: nat, i: nat, j: nat)
    requires FixedLength(base, length) && i < |nodes| && j < |nodes| && nodes[i] != nodes[j]
    requires Named(nodes, Materials(nodes), base, i) && Named(nodes, Materials(nodes), base, j)
    ensures nodes[i].id != nodes[j].id
  {
    var ms := Materials(nodes);
    var k: nat :| k < |ms| && nodes[k] == nodes[i] && Numbered(nodes[i], ms, base, k);
    var l: nat :| l < |ms| && nodes[l] == nodes[j] && Numbered(nodes[j], ms, base, l);
    IdsAreDistinct(ms, base, length, k, l);
  }

  lemma JoinedLines(m: Material)
    ensures Join(m) == m.source + "\n" + m.header + "\n" + Str(m.start) + "\n" + Str(m.end) + "\n" + m.textHash
  {
  }

  // A node that shares its base id with no other keeps the plain hash of its five lines, and
  // whatever collision record it had.
  lemma AloneKeepsBaseId(nodes: seq<ChunkNode>, hash: string -> string, i: nat)
    requires i < |nodes| && Named(nodes, Materials(nodes), BaseId(hash), i)
    requires forall j :: 0 <= j < |nodes| && j != i ==>
        hash(Join(nodes[j].material)) != hash(Join(nodes[i].material))
    ensures
      var m := nodes[i].material;
      nodes[i].id ==
        hash(m.source + "\n" + m.header + "\n" + Str(m.start) + "\n" + Str(m.end) + "\n" + m.textHash)
    ensures GroupSize(Materials(nodes), BaseId(hash), i) == 1
  {
    hide Join;
    var ms, base := Materials(nodes), BaseId(hash);
    forall j: nat | j < |ms| && base(ms[j]) == base(ms[i]) ensures j == i {
      assert hash(Join(nodes[j].material)) == hash(Join(nodes[i].material));
    }
    var j: nat :| j < |ms| && nodes[j] == nodes[i] && Numbered(nodes[i], ms, base, j);
    JoinedLines(nodes[i].material);
    assert EarlierInGroup(ms, base, i) == {};
    assert Group(ms, base, base(ms[i]), |ms|) == {i};
  }
}
