/**
 Printing a module tree with identical numbered layers collapsed. Layers are compared by a signature string,
 one line `path:info` per submodule; the indices of a collapsed group are printed as ranges.
 */
module ModelInspection {
  import opened Lists
  import opened Text

  datatype Tree = Node(info: string, children: seq<Child>)
  datatype Child = Child(name: string, tree: Tree)

  // ------------------------------------------------------------------ signatures

  datatype Entry = Entry(path: seq<string>, info: string)

  /** The submodules in the order they are listed, each with its path of names. */
  function Preorder(t: Tree, path: seq<string>): seq<Entry>
    decreases t
  {
    [Entry(path, t.info)] + Forest(t.children, path)
  }

  function Forest(cs: seq<Child>, path: seq<string>): seq<Entry>
    decreases cs
  {
    if cs == [] then []
    else Preorder(cs[0].tree, path + [cs[0].name]) + Forest(cs[1..], path)
  }

  function LineOf(e: Entry): string { Join(e.path, '.') + ":" + e.info }

  function LinesOf(es: seq<Entry>): seq<string> { seq(|es|, i requires 0 <= i < |es| => LineOf(es[i])) }

  function Signature(t: Tree): string { Join(LinesOf(Preorder(t, [])), '\n') }

  /** Neither the character that joins names nor the one that ends a path. */
  predicate CleanName(name: string) { '.' !in name && ':' !in name }

  ghost predicate Clean(t: Tree)
    decreases t
  {
    '\n' !in t.info && CleanForest(t.children)
  }

  ghost predicate CleanForest(cs: seq<Child>)
    decreases cs
  {
    cs != [] ==> CleanName(cs[0].name) && Clean(cs[0].tree) && CleanForest(cs[1..])
  }

  /** Nothing left, or an entry at most `depth` names deep comes next. */
  ghost predicate Shallow(es: seq<Entry>, depth: nat) { es != [] ==> |es[0].path| <= depth }

  lemma ForestHead(cs: seq<Child>, path: seq<string>)
    requires cs != []
    ensures Forest(cs, path) == [Entry(path + [cs[0].name], cs[0].tree.info)] +
                                (Forest(cs[0].tree.children, path + [cs[0].name]) + Forest(cs[1..], path))
  {
    var deeper := path + [cs[0].name];
    var inner := Forest(cs[0].tree.children, deeper);
    assert Preorder(cs[0].tree, deeper) == [Entry(deeper, cs[0].tree.info)] + inner;
    Regroup(Entry(deeper, cs[0].tree.info), inner, Forest(cs[1..], path));
  }

  lemma Regroup(e: Entry, a: seq<Entry>, b: seq<Entry>)
    ensures ([e] + a) + b == [e] + (a + b)
  {
  }

  lemma ForestDeep(cs: seq<Child>, path: seq<string>)
    ensures cs == [] ==> Forest(cs, path) == []
    ensures cs != [] ==> Forest(cs, path) != [] && Forest(cs, path)[0] == Entry(path + [cs[0].name], cs[0].tree.info)
  {
    if cs != [] { ForestHead(cs, path); }
  }

  /** Depth alone says where a listed forest ends, so a listing has one reading. */
  lemma {:induction false} ForestInjective(cs: seq<Child>, ds: seq<Child>, path: seq<string>, rest: seq<Entry>,
                                           other: seq<Entry>)
    requires Forest(cs, path) + rest == Forest(ds, path) + other
    requires Shallow(rest, |path|) && Shallow(other, |path|)
    ensures cs == ds && rest == other
    decreases cs
  {
    hide Forest;
    var all := Forest(cs, path) + rest;
    ForestDeep(cs, path);
    ForestDeep(ds, path);
    if cs == [] || ds == [] {
      assert cs == [] ==> all == rest;
      assert ds == [] ==> all == other;
    } else {
      ForestHead(cs, path);
      ForestHead(ds, path);
      assert all[0] == Forest(cs, path)[0] == Forest(ds, path)[0];
      var deeper := path + [cs[0].name];
      assert deeper[|path|] == cs[0].name && (path + [ds[0].name])[|path|] == ds[0].name;
      var more, others := Forest(cs[1..], path) + rest, Forest(ds[1..], path) + other;
      assert all[1..] == Forest(cs[0].tree.children, deeper) + more;
      assert all[1..] == Forest(ds[0].tree.children, deeper) + others;
      ForestDeep(cs[1..], path);
      ForestDeep(ds[1..], path);
      ForestInjective(cs[0].tree.children, ds[0].tree.children, deeper, more, others);
      ForestInjective(cs[1..], ds[1..], path, rest, other);
      assert cs == [cs[0]] + cs[1..] && ds == [ds[0]] + ds[1..];
    }
  }

  /** Equal path-and-info lists come from equal trees. */
  lemma PreorderInjective(t: Tree, u: Tree)
    requires Preorder(t, []) == Preorder(u, [])
    ensures t == u
  {
    hide Forest;
    var ts, us := Preorder(t, []), Preorder(u, []);
    assert ts[0] == us[0];
    assert ts[1..] == Forest(t.children, []) + [] && us[1..] == Forest(u.children, []) + [];
    ForestInjective(t.children, u.children, [], [], []);
  }

  /** An entry whose text can be told apart: no colon in its path, no newline in its info. */
  ghost predicate CleanEntry(e: Entry) { '\n' !in e.info && forall p :: p in e.path ==> CleanName(p) }

  lemma {:induction false} CleanPaths(cs: seq<Child>, path: seq<string>)
    requires CleanForest(cs) && forall p :: p in path ==> CleanName(p)
    ensures forall e :: e in Forest(cs, path) ==> CleanEntry(e) && |e.path| > |path|
    decreases cs
  {
    if cs != [] {
      ForestHead(cs, path);
      CleanPaths(cs[0].tree.children, path + [cs[0].name]);
      CleanPaths(cs[1..], path);
    }
  }

  lemma {:induction false} JoinedWithout(path: seq<string>, sep: char, c: char)
    requires Free(path, c) && c != sep
    ensures c !in Join(path, sep)
  {
    if |path| > 1 { JoinedWithout(path[1..], sep, c); }
  }

  /** The text of a list of entries, read up to the first colon and then up to the first newline. */
  lemma LinesHead(es: seq<Entry>)
    requires es != []
    ensures Join(LinesOf(es), '\n') ==
            Join(es[0].path, '.') + [':'] +
            (es[0].info + if |es| == 1 then "" else ['\n'] + Join(LinesOf(es[1..]), '\n'))
  {
    assert LinesOf(es)[1..] == LinesOf(es[1..]);
  }

  /** Equal texts list the same paths and infos. Newlines inside names do no harm: a path ends at its colon. */
  lemma {:induction false} LinesInjective(ds: seq<Entry>, es: seq<Entry>)
    requires ds != [] && es != [] && (forall d :: d in ds ==> CleanEntry(d)) && (forall e :: e in es ==> CleanEntry(e))
    requires Join(LinesOf(ds), '\n') == Join(LinesOf(es), '\n')
    ensures |ds| == |es|
    ensures forall i :: 0 <= i < |ds| ==> Join(ds[i].path, '.') == Join(es[i].path, '.') && ds[i].info == es[i].info
  {
    hide Join;
    LinesHead(ds);
    LinesHead(es);
    assert CleanEntry(ds[0]) && CleanEntry(es[0]);
    JoinedWithout(ds[0].path, '.', ':');
    JoinedWithout(es[0].path, '.', ':');
    var more, others := Join(LinesOf(ds[1..]), '\n'), Join(LinesOf(es[1..]), '\n');
    var x := ds[0].info + if |ds| == 1 then "" else ['\n'] + more;
    var y := es[0].info + if |es| == 1 then "" else ['\n'] + others;
    SplitOnce(Join(ds[0].path, '.'), Join(es[0].path, '.'), ':', x, y);
    assert |ds| > 1 ==> x[|ds[0].info|] == '\n';
    assert |es| > 1 ==> y[|es[0].info|] == '\n';
    assert (|ds| == 1 ==> x == ds[0].info) && (|es| == 1 ==> y == es[0].info);
    if |ds| > 1 && |es| > 1 {
      assert x == ds[0].info + ['\n'] + more && y == es[0].info + ['\n'] + others;
      SplitOnce(ds[0].info, es[0].info, '\n', more, others);
      LinesInjective(ds[1..], es[1..]);
      forall i | 0 < i < |ds|
        ensures Join(ds[i].path, '.') == Join(es[i].path, '.') && ds[i].info == es[i].info
      {
        assert ds[i] == ds[1..][i - 1] && es[i] == es[1..][i - 1];
      }
    }
  }

  /** Equal signatures come from equal trees, down to every name and info string. */
  lemma SignatureInjective(t: Tree, u: Tree)
    requires Clean(t) && Clean(u) && Signature(t) == Signature(u)
    ensures t == u
  {
    hide Forest, Join;
    var ts, us := Preorder(t, []), Preorder(u, []);
    CleanPaths(t.children, []);
    CleanPaths(u.children, []);
    LinesInjective(ts, us);
    forall i | 0 <= i < |ts| ensures ts[i] == us[i] {
      if i > 0 {
        assert ts[i] in Forest(t.children, []) && us[i] in Forest(u.children, []);
        JoinInjective(ts[i].path, us[i].path, '.');
      }
    }
    PreorderInjective(t, u);
  }

  // ------------------------------------------------------------------ separators in names

  lemma OneChild(root: string, c: Child)
    ensures Preorder(Node(root, [c]), []) ==
            [Entry([], root), Entry([c.name], c.tree.info)] + Forest(c.tree.children, [c.name])
  {
    ForestHead([c], []);
    assert [] + [c.name] == [c.name];
    assert Forest([c][1..], []) == [];
  }

  /** A colon in a name breaks it, wherever it is: the rest of the name could be the start of the info. */
  lemma ColonInName(p: string, q: string, root: string, info: string)
    ensures var t := Node(root, [Child(p + ":" + q, Node(info, []))]);
            var u := Node(root, [Child(p, Node(q + ":" + info, []))]);
            t != u && Signature(t) == Signature(u)
  {
    var c, d := Child(p + ":" + q, Node(info, [])), Child(p, Node(q + ":" + info, []));
    assert |c.name| > |d.name|;
    OneChild(root, c);
    OneChild(root, d);
    assert LineOf(Entry([c.name], info)) == LineOf(Entry([p], q + ":" + info));
    assert LinesOf(Preorder(Node(root, [c]), [])) == LinesOf(Preorder(Node(root, [d]), []));
  }

  /** So does a dot: a sibling named `p.q` lists like a child `q` of `p`. */
  lemma DotInName(p: string, q: string, root: string, i: string, j: string)
    ensures var t := Node(root, [Child(p, Node(i, [])), Child(p + "." + q, Node(j, []))]);
            var u := Node(root, [Child(p, Node(i, [Child(q, Node(j, []))]))]);
            t != u && Signature(t) == Signature(u)
  {
    var a, b, c := Child(p, Node(i, [])), Child(p + "." + q, Node(j, [])), Child(p, Node(i, [Child(q, Node(j, []))]));
    var t, u := Node(root, [a, b]), Node(root, [c]);
    ForestHead([a, b], []);
    assert [a, b][1..] == [b];
    ForestHead([b], []);
    OneChild(root, c);
    ForestHead(c.tree.children, [p]);
    assert c.tree.children[1..] == [] && [] + [p] == [p] && [] + [b.name] == [b.name];
    assert Preorder(t, []) == [Entry([], root), Entry([p], i), Entry([b.name], j)];
    assert Preorder(u, []) == [Entry([], root), Entry([p], i), Entry([p] + [q], j)];
    assert Join([p] + [q], '.') == b.name == Join([b.name], '.');
    assert LineOf(Preorder(t, [])[2]) == LineOf(Preorder(u, [])[2]);
    assert LinesOf(Preorder(t, [])) == LinesOf(Preorder(u, []));
  }

  /** Names that are not empty and use only the characters in `letters`; infos without newlines. */
  ghost predicate Spelled(t: Tree, letters: set<char>)
    decreases t
  {
    '\n' !in t.info && SpelledForest(t.children, letters)
  }

  ghost predicate SpelledForest(cs: seq<Child>, letters: set<char>)
    decreases cs
  {
    cs != [] ==>
      && cs[0].name != [] && (forall c :: c in cs[0].name ==> c in letters)
      && Spelled(cs[0].tree, letters) && SpelledForest(cs[1..], letters)
  }

  lemma {:induction false} SpelledClean(cs: seq<Child>, letters: set<char>)
    requires SpelledForest(cs, letters) && ':' !in letters && '.' !in letters
    ensures CleanForest(cs)
    decreases cs
  {
    if cs != [] {
      SpelledClean(cs[0].tree.children, letters);
      SpelledClean(cs[1..], letters);
    }
  }

  /**
   Exactly which names are safe: signatures tell every two trees apart if and only if the names may hold neither a
   colon nor a dot. Any other character, a newline included, is harmless.
   */
  lemma SignatureInjectiveIff(letters: set<char>)
    ensures (forall t, u :: Spelled(t, letters) && Spelled(u, letters) && Signature(t) == Signature(u) ==> t == u)
            <==> ':' !in letters && '.' !in letters
  {
    hide Signature;
    if ':' in letters {
      var t, u := Node("", [Child(":" + ":" + ":", Node("", []))]), Node("", [Child(":", Node(":" + ":" + "", []))]);
      ColonInName(":", ":", "", "");
      SpelledOne(letters, ":" + ":" + ":", "");
      SpelledOne(letters, ":", ":" + ":" + "");
      assert Spelled(t, letters) && Spelled(u, letters) && Signature(t) == Signature(u) && t != u;
    } else if '.' in letters {
      var a := Child(".", Node("", []));
      var t, u := Node("", [a, Child("." + "." + ".", Node("", []))]), Node("", [Child(".", Node("", [a]))]);
      DotInName(".", ".", "", "", "");
      SpelledDots(letters, a, t, u);
      assert Spelled(t, letters) && Spelled(u, letters) && Signature(t) == Signature(u) && t != u;
    } else {
      forall t, u | Spelled(t, letters) && Spelled(u, letters) && Signature(t) == Signature(u) ensures t == u {
        SpelledClean(t.children, letters);
        SpelledClean(u.children, letters);
        SignatureInjective(t, u);
      }
    }
  }

  lemma SpelledOne(letters: set<char>, name: string, info: string)
    requires name != [] && (forall c :: c in name ==> c in letters) && '\n' !in info
    ensures Spelled(Node("", [Child(name, Node(info, []))]), letters)
  {
    var c := Child(name, Node(info, []));
    assert Spelled(c.tree, letters) && [c][1..] == [];
    assert SpelledForest([c], letters);
  }

  lemma SpelledDots(letters: set<char>, a: Child, t: Tree, u: Tree)
    requires '.' in letters && a == Child(".", Node("", []))
    requires t == Node("", [a, Child("." + "." + ".", Node("", []))]) && u == Node("", [Child(".", Node("", [a]))])
    ensures Spelled(t, letters) && Spelled(u, letters)
  {
    var b, c := t.children[1], u.children[0];
    assert Spelled(a.tree, letters) && Spelled(b.tree, letters);
    assert [a, b][1..] == [b] && [b][1..] == [] && [a][1..] == [] && [c][1..] == [];
    assert SpelledForest([b], letters) && SpelledForest([a], letters);
    assert Spelled(c.tree, letters);
    assert SpelledForest([c], letters);
  }

  // ------------------------------------------------------------------ index ranges

  datatype Range = Range(lo: int, hi: int)

  function Span(lo: int, hi: int): seq<int>
    decreases hi - lo
  {
    if hi < lo then [] else Span(lo, hi - 1) + [hi]
  }

  /** What a reader of the ranges gets back. */
  function Expand(rs: seq<Range>): seq<int> {
    if rs == [] then [] else Expand(rs[..|rs| - 1]) + Span(rs[|rs| - 1].lo, rs[|rs| - 1].hi)
  }

  ghost predicate Sorted(s: seq<int>) { forall i, j :: 0 <= i < j < |s| ==> s[i] <= s[j] }

  function Insert(x: int, s: seq<int>): (r: seq<int>)
    requires Sorted(s)
    ensures Sorted(r) && multiset(r) == multiset(s) + multiset{x}
  {
    if s == [] || x <= s[0] then
      SortedCons(x, s);
      [x] + s
    else
      assert s == [s[0]] + s[1..];
      var t := Insert(x, s[1..]);
      InsertBounded(x, s, t);
      SortedCons(s[0], t);
      [s[0]] + t
  }

  lemma SortedCons(x: int, t: seq<int>)
    requires Sorted(t) && (t != [] ==> x <= t[0])
    ensures Sorted([x] + t)
  {
    var r := [x] + t;
    forall i, j | 0 <= i < j < |r| ensures r[i] <= r[j] {
      assert r[j] == t[j - 1] && (i > 0 ==> r[i] == t[i - 1]);
      assert t[0] <= t[j - 1];
    }
  }

  lemma InsertBounded(x: int, s: seq<int>, t: seq<int>)
    requires s != [] && Sorted(s) && s[0] < x && multiset(t) == multiset(s[1..]) + multiset{x}
    ensures forall i :: 0 <= i < |t| ==> s[0] <= t[i]
  {
    forall i | 0 <= i < |t| ensures s[0] <= t[i] {
      assert t[i] in multiset(t);
      assert t[i] in s[1..] || t[i] == x;
    }
  }

  /** `sorted(indices)` */
  function Sort(s: seq<int>): (r: seq<int>)
    ensures Sorted(r) && multiset(r) == multiset(s)
  {
    if s == [] then []
    else
      assert s == s[..|s| - 1] + [s[|s| - 1]];
      Insert(s[|s| - 1], Sort(s[..|s| - 1]))
  }

  /** How often the next index is not the successor of the one before. */
  function Breaks(s: seq<int>): nat {
    if |s| <= 1 then 0 else Breaks(s[..|s| - 1]) + if s[|s| - 1] == s[|s| - 2] + 1 then 0 else 1
  }

  /** The runs of successive indices, in order. */
  function RangesOf(s: seq<int>): seq<Range> {
    if s == [] then []
    else
      var rs, x := RangesOf(s[..|s| - 1]), s[|s| - 1];
      if rs != [] && x == rs[|rs| - 1].hi + 1 then rs[..|rs| - 1] + [Range(rs[|rs| - 1].lo, x)] else rs + [Range(x, x)]
  }

  /** The loop over the sorted indices. An empty list has no first index and is refused. */
  method IndexRanges(indices: seq<int>) returns (r: Option<seq<Range>>)
    ensures r.None? <==> indices == []
    ensures r.Some? ==> Expand(r.value) == Sort(indices) && |r.value| == Breaks(Sort(indices)) + 1
    ensures r.Some? ==> Maximal(r.value) && r.value == RangesOf(Sort(indices))
  {
    hide Expand, Span, Breaks, Sort, Pending, Maximal, RangesOf;
    if indices == [] {
      return None;
    }
    var sorted := Sort(indices);
    SameSize(indices, sorted);
    var ranges: seq<Range> := [];
    var start, end := sorted[0], sorted[0];
    FirstIndex(start);
    assert sorted[..1] == [sorted[0]];
    for i := 1 to |sorted|
      invariant Pending(ranges, start, end, sorted[..i])
      invariant RangesOf(sorted[..i]) == ranges + [Range(start, end)]
    {
      assert sorted[..i + 1] == sorted[..i] + [sorted[i]];
      NextIndex(ranges, start, end, sorted[..i], sorted[i]);
      RangesNext(ranges, start, end, sorted[..i], sorted[i]);
      if sorted[i] == end + 1 {
        end := sorted[i];
      } else {
        ranges := ranges + [Range(start, end)];
        start, end := sorted[i], sorted[i];
      }
    }
    assert sorted[..|sorted|] == sorted;
    LastRange(ranges, start, end, sorted);
    r := Some(ranges + [Range(start, end)]);
  }

  /** No range is empty and no two neighbours could be one. */
  ghost predicate Maximal(rs: seq<Range>) {
    && (forall k :: 0 <= k < |rs| ==> rs[k].lo <= rs[k].hi)
    && forall k :: 0 < k < |rs| ==> rs[k - 1].hi + 1 != rs[k].lo
  }

  /** The closed ranges and the open one account for the indices read so far. */
  ghost predicate Pending(ranges: seq<Range>, start: int, end: int, s: seq<int>) {
    && Expand(ranges) + Span(start, end) == s && s != [] && s[|s| - 1] == end && |ranges| == Breaks(s)
    && Maximal(ranges + [Range(start, end)])
  }

  lemma FirstIndex(x: int)
    ensures Pending([], x, x, [x]) && RangesOf([x]) == [] + [Range(x, x)]
  {
    SingleSpan(x);
  }

  lemma RangesNext(ranges: seq<Range>, start: int, end: int, s: seq<int>, x: int)
    requires RangesOf(s) == ranges + [Range(start, end)]
    ensures RangesOf(s + [x]) ==
            if x == end + 1 then ranges + [Range(start, x)] else ranges + [Range(start, end)] + [Range(x, x)]
  {
    assert (s + [x])[..|s|] == s;
    assert RangesOf(s)[..|ranges|] == ranges;
  }

  /** The runs expand to the indices they came from. */
  lemma {:induction false} RangesPending(s: seq<int>) returns (ranges: seq<Range>, start: int, end: int)
    requires s != []
    ensures RangesOf(s) == ranges + [Range(start, end)] && Pending(ranges, start, end, s)
  {
    hide RangesOf, Pending;
    var init, x := s[..|s| - 1], s[|s| - 1];
    assert s == init + [x];
    if init == [] {
      FirstIndex(x);
      assert s == [x];
      ranges, start, end := [], x, x;
    } else {
      ranges, start, end := RangesPending(init);
      NextIndex(ranges, start, end, init, x);
      RangesNext(ranges, start, end, init, x);
      if x == end + 1 { end := x; } else { ranges, start, end := ranges + [Range(start, end)], x, x; }
    }
  }

  lemma RangesExpand(s: seq<int>)
    ensures Expand(RangesOf(s)) == s && (s != [] ==> RangesOf(s) != [])
  {
    if s != [] {
      hide RangesOf, Pending;
      var ranges, start, end := RangesPending(s);
      LastRange(ranges, start, end, s);
    }
  }

  lemma LastRange(ranges: seq<Range>, start: int, end: int, s: seq<int>)
    requires Pending(ranges, start, end, s)
    ensures var rs := ranges + [Range(start, end)]; Expand(rs) == s && |rs| == Breaks(s) + 1 && Maximal(rs)
  {
    hide Expand, Span, Breaks, Maximal;
    ExpandSnoc(ranges, Range(start, end));
  }

  lemma MaximalNext(ranges: seq<Range>, start: int, end: int, x: int)
    requires Maximal(ranges + [Range(start, end)])
    ensures start <= end
    ensures x == end + 1 ==> Maximal(ranges + [Range(start, x)])
    ensures x != end + 1 ==> Maximal(ranges + [Range(start, end)] + [Range(x, x)])
  {
    var before, n := ranges + [Range(start, end)], |ranges|;
    assert before[n] == Range(start, end) && forall k :: 0 <= k < n ==> before[k] == ranges[k];
    if x == end + 1 {
      var longer := ranges + [Range(start, x)];
      forall k | 0 <= k < |longer| ensures longer[k].lo <= longer[k].hi && longer[k].lo == before[k].lo { }
      forall k | 0 < k < |longer| ensures longer[k - 1].hi + 1 != longer[k].lo {
        assert longer[k - 1] == before[k - 1];
      }
    } else {
      var more := before + [Range(x, x)];
      forall k | 0 < k < |more| ensures more[k - 1].hi + 1 != more[k].lo { assert more[k - 1] == before[k - 1]; }
    }
  }

  lemma NextIndex(ranges: seq<Range>, start: int, end: int, s: seq<int>, x: int)
    requires Pending(ranges, start, end, s)
    ensures x == end + 1 ==> Pending(ranges, start, x, s + [x])
    ensures x != end + 1 ==> Pending(ranges + [Range(start, end)], x, x, s + [x])
  {
    hide Expand, Maximal;
    BreaksSnoc(s, x);
    SingleSpan(x);
    MaximalNext(ranges, start, end, x);
    ExpandSnoc(ranges, Range(start, end));
    if x == end + 1 {
      SpanNext(start, end);
      Assoc(Expand(ranges), Span(start, end), x);
    }
  }

  lemma SpanNext(lo: int, hi: int)
    requires lo <= hi
    ensures Span(lo, hi + 1) == Span(lo, hi) + [hi + 1]
  {
  }

  lemma Assoc(a: seq<int>, b: seq<int>, x: int)
    ensures a + (b + [x]) == (a + b) + [x]
  {
  }

  lemma SameSize<T>(s: seq<T>, t: seq<T>)
    requires multiset(s) == multiset(t)
    ensures |s| == |t|
  {
    assert |multiset(s)| == |s| && |multiset(t)| == |t|;
  }

  lemma SingleSpan(x: int)
    ensures Span(x, x) == [x]
  {
    assert Span(x, x - 1) == [];
  }

  lemma ExpandSnoc(rs: seq<Range>, x: Range)
    ensures Expand(rs + [x]) == Expand(rs) + Span(x.lo, x.hi)
  {
    assert (rs + [x])[..|rs|] == rs;
  }

  // ------------------------------------------------------------------ fewest ranges

  lemma BreaksSnoc(s: seq<int>, x: int)
    ensures Breaks(s + [x]) == Breaks(s) + if s == [] || x == s[|s| - 1] + 1 then 0 else 1
  {
    assert (s + [x])[..|s|] == s;
  }

  lemma {:induction false} BreaksSpan(s: seq<int>, lo: int, hi: int)
    ensures Breaks(s + Span(lo, hi)) <= Breaks(s) + 1
    ensures s == [] ==> Breaks(s + Span(lo, hi)) == 0
    decreases hi - lo
  {
    hide Span;
    SpanParts(lo, hi);
    if hi < lo {
      assert s + [] == s;
    } else {
      BreaksSpan(s, lo, hi - 1);
      var t := s + Span(lo, hi - 1);
      Assoc(s, Span(lo, hi - 1), hi);
      BreaksSnoc(t, hi);
      SpanParts(lo, hi - 1);
      if hi == lo { assert t == s; } else { assert t[|t| - 1] == hi - 1; }
    }
  }

  lemma SpanParts(lo: int, hi: int)
    ensures Span(lo, hi) == if hi < lo then [] else Span(lo, hi - 1) + [hi]
  {
  }

  /** No list of ranges for the same indices is shorter than the printed one. */
  lemma {:induction false} FewestRanges(rs: seq<Range>)
    ensures rs != [] ==> Breaks(Expand(rs)) + 1 <= |rs|
  {
    if rs != [] {
      var init, last := rs[..|rs| - 1], rs[|rs| - 1];
      FewestRanges(init);
      BreaksSpan(Expand(init), last.lo, last.hi);
    }
  }

  // ------------------------------------------------------------------ ranges as text

  function IntText(x: int): string { if x < 0 then "-" + Decimal(-x) else Decimal(x) }

  function Tail(r: Range): string { if r.lo == r.hi then "" else "-" + IntText(r.hi) }

  function RangeText(r: Range): string { IntText(r.lo) + Tail(r) }

  /** The ranges separated by a comma and a space. */
  function RangesText(rs: seq<Range>): string {
    if rs == [] then "" else if |rs| == 1 then RangeText(rs[0])
    else RangeText(rs[0]) + "," + (" " + RangesText(rs[1..]))
  }

  lemma SignFirst(x: int)
    ensures IntText(x) != [] && (IntText(x)[0] == '-' <==> x < 0)
  {
    hide Decimal;
    assert x >= 0 ==> Decimal(x)[0] in Decimal(x);
  }

  lemma IntTextInjective(x: int, y: int)
    requires IntText(x) == IntText(y)
    ensures x == y
  {
    hide Decimal;
    SignFirst(x);
    SignFirst(y);
    if x < 0 {
      assert IntText(x)[1..] == Decimal(-x) && IntText(y)[1..] == Decimal(-y);
      DecimalInjective(-x, -y);
    } else {
      DecimalInjective(x, y);
    }
  }

  /** A number ends where the dash is. */
  lemma DigitsEnd(a: nat, b: nat, t: string, u: string)
    requires Decimal(a) + t == Decimal(b) + u
    requires (t != [] ==> t[0] == '-') && (u != [] ==> u[0] == '-')
    ensures a == b && t == u
  {
    hide Decimal;
    var s := Decimal(a) + t;
    assert forall i :: 0 <= i < |Decimal(a)| ==> s[i] == Decimal(a)[i] && Decimal(a)[i] in Decimal(a);
    assert forall i :: 0 <= i < |Decimal(b)| ==> s[i] == Decimal(b)[i] && Decimal(b)[i] in Decimal(b);
    assert t != [] ==> s[|Decimal(a)|] == '-';
    assert u != [] ==> s[|Decimal(b)|] == '-';
    assert |Decimal(a)| == |Decimal(b)|;
    assert Decimal(a) == s[..|Decimal(a)|] && Decimal(b) == s[..|Decimal(b)|];
    assert t == s[|Decimal(a)|..] && u == s[|Decimal(b)|..];
    DecimalInjective(a, b);
  }

  lemma BehindFirst(a: string, t: string, b: string, u: string)
    requires a != [] && b != [] && a + t == b + u
    ensures a[0] == b[0] && a[1..] + t == b[1..] + u
  {
    var s := a + t;
    assert a[0] == s[0] && b[0] == (b + u)[0];
    assert a[1..] + t == s[1..] && b[1..] + u == (b + u)[1..];
  }

  lemma Unsigned(x: int)
    ensures x < 0 ==> IntText(x)[1..] == Decimal(-x)
    ensures x >= 0 ==> IntText(x) == Decimal(x)
  {
    hide Decimal;
  }

  /** An integer followed by nothing or a dash: both can be told apart. */
  lemma IntegerEnds(x: int, y: int, t: string, u: string)
    requires IntText(x) + t == IntText(y) + u
    requires (t != [] ==> t[0] == '-') && (u != [] ==> u[0] == '-')
    ensures x == y && t == u
  {
    hide IntText, Decimal;
    SignFirst(x);
    SignFirst(y);
    Unsigned(x);
    Unsigned(y);
    BehindFirst(IntText(x), t, IntText(y), u);
    if x < 0 { DigitsEnd(-x, -y, t, u); } else { DigitsEnd(x, y, t, u); }
  }

  lemma TailInjective(r: Range, q: Range)
    requires r.lo == q.lo && Tail(r) == Tail(q)
    ensures r == q
  {
    hide IntText;
    if r.lo != r.hi {
      assert Tail(r)[1..] == IntText(r.hi) && Tail(q)[1..] == IntText(q.hi);
      IntTextInjective(r.hi, q.hi);
    }
  }

  lemma TailStarts(r: Range)
    ensures Tail(r) != [] ==> Tail(r)[0] == '-'
  {
    hide IntText;
  }

  lemma RangeTextInjective(r: Range, q: Range)
    requires RangeText(r) == RangeText(q)
    ensures r == q
  {
    hide IntText, Tail;
    TailStarts(r);
    TailStarts(q);
    IntegerEnds(r.lo, q.lo, Tail(r), Tail(q));
    TailInjective(r, q);
  }

  lemma NoComma(r: Range)
    ensures ',' !in RangeText(r)
  {
    hide Decimal;
    NoCommaInt(r.lo);
    NoCommaInt(r.hi);
  }

  lemma NoCommaInt(x: int)
    ensures ',' !in IntText(x)
  {
    hide Decimal;
  }

  lemma RangesTextHasComma(rs: seq<Range>)
    requires rs != []
    ensures ',' in RangesText(rs) <==> |rs| > 1
  {
    NoComma(rs[0]);
    if |rs| > 1 { assert RangesText(rs)[|RangeText(rs[0])|] == ','; }
  }

  /** The printed text determines the ranges. */
  lemma {:induction false} RangesTextInjective(rs: seq<Range>, qs: seq<Range>)
    requires rs != [] && qs != [] && RangesText(rs) == RangesText(qs)
    ensures rs == qs
  {
    hide RangeText;
    RangesTextHasComma(rs);
    RangesTextHasComma(qs);
    NoComma(rs[0]);
    NoComma(qs[0]);
    if |rs| > 1 {
      var x, y := " " + RangesText(rs[1..]), " " + RangesText(qs[1..]);
      SplitOnce(RangeText(rs[0]), RangeText(qs[0]), ',', x, y);
      assert x[1..] == RangesText(rs[1..]) && y[1..] == RangesText(qs[1..]);
      RangesTextInjective(rs[1..], qs[1..]);
      assert rs == [rs[0]] + rs[1..] && qs == [qs[0]] + qs[1..];
    }
    RangeTextInjective(rs[0], qs[0]);
  }

  /** Two index lists printed alike are the same up to order. */
  lemma TextDeterminesIndices(a: seq<int>, rs: seq<Range>, b: seq<int>, qs: seq<Range>)
    requires rs != [] && Expand(rs) == Sort(a) && qs != [] && Expand(qs) == Sort(b)
    requires RangesText(rs) == RangesText(qs)
    ensures multiset(a) == multiset(b)
  {
    RangesTextInjective(rs, qs);
    assert multiset(Sort(a)) == multiset(a) && multiset(Sort(b)) == multiset(b);
  }

  // ------------------------------------------------------------------ collapsing layers

  datatype Layer = Layer(index: int, tree: Tree)

  /** The children whose names read as integers, in order. */
  function Numbered(cs: seq<Child>, num: string -> Option<int>): seq<Layer> {
    if cs == [] then []
    else Numbered(cs[..|cs| - 1], num) +
         match num(cs[|cs| - 1].name) case Some(i) => [Layer(i, cs[|cs| - 1].tree)] case None => []
  }

  /** The other children, in order. */
  function Named(cs: seq<Child>, num: string -> Option<int>): seq<Child> {
    if cs == [] then []
    else Named(cs[..|cs| - 1], num) + if num(cs[|cs| - 1].name).Some? then [] else [cs[|cs| - 1]]
  }

  /** The loop that separates them; `num` is the conversion of a name to an integer, `None` where it fails. */
  method Separate(cs: seq<Child>, num: string -> Option<int>) returns (numbered: seq<Layer>, named: seq<Child>)
    ensures numbered == Numbered(cs, num) && named == Named(cs, num)
    ensures |numbered| + |named| == |cs|
    ensures CleanForest(cs) ==> forall m :: m in numbered ==> Clean(m.tree)
  {
    numbered, named := [], [];
    for i := 0 to |cs|
      invariant numbered == Numbered(cs[..i], num) && named == Named(cs[..i], num) && |numbered| + |named| == i
    {
      assert cs[..i + 1][..i] == cs[..i];
      match num(cs[i].name)
      case Some(n) => numbered := numbered + [Layer(n, cs[i].tree)];
      case None => named := named + [cs[i]];
    }
    assert cs[..|cs|] == cs;
    if CleanForest(cs) { NumberedClean(cs, num); }
  }

  lemma {:induction false} CleanAt(cs: seq<Child>, i: nat)
    requires CleanForest(cs) && i < |cs|
    ensures Clean(cs[i].tree)
    decreases cs
  {
    if i > 0 { CleanAt(cs[1..], i - 1); }
  }

  lemma {:induction false} NumberedFrom(cs: seq<Child>, num: string -> Option<int>, m: Layer) returns (i: nat)
    requires m in Numbered(cs, num)
    ensures i < |cs| && num(cs[i].name) == Some(m.index) && cs[i].tree == m.tree
  {
    var last := |cs| - 1;
    if m in Numbered(cs[..last], num) { i := NumberedFrom(cs[..last], num, m); } else { i := last; }
  }

  lemma NumberedClean(cs: seq<Child>, num: string -> Option<int>)
    requires CleanForest(cs)
    ensures forall m :: m in Numbered(cs, num) ==> Clean(m.tree)
  {
    forall m | m in Numbered(cs, num) ensures Clean(m.tree) {
      var i := NumberedFrom(cs, num, m);
      CleanAt(cs, i);
    }
  }

  /** The layers of one signature, in order. */
  function Alike(ls: seq<Layer>, sig: string): seq<Layer> {
    if ls == [] then []
    else Alike(ls[..|ls| - 1], sig) + if Signature(ls[|ls| - 1].tree) == sig then [ls[|ls| - 1]] else []
  }

  /** The signatures in order of first appearance. */
  function Signatures(ls: seq<Layer>): seq<string> {
    if ls == [] then []
    else
      var sigs := Signatures(ls[..|ls| - 1]);
      if Signature(ls[|ls| - 1].tree) in sigs then sigs else sigs + [Signature(ls[|ls| - 1].tree)]
  }

  /** The grouping dictionary's values: one list per signature, holding exactly the layers that have it. */
  ghost predicate Grouped(groups: seq<seq<Layer>>, ls: seq<Layer>) {
    && |groups| == |Signatures(ls)|
    && forall g :: 0 <= g < |groups| ==> groups[g] == Alike(ls, Signatures(ls)[g])
  }

  /** The loop that fills the dictionary. */
  method GroupLayers(ls: seq<Layer>) returns (groups: seq<seq<Layer>>)
    ensures Grouped(groups, ls)
  {
    hide Signature, Grouped;
    groups := [];
    var keys: seq<string> := [];
    NoLayers();
    for i := 0 to |ls|
      invariant keys == Signatures(ls[..i]) && |groups| == |keys| && Grouped(groups, ls[..i])
    {
      var sig := Signature(ls[i].tree);
      var at := 0;
      while at < |keys| && keys[at] != sig
        invariant 0 <= at <= |keys| && forall k :: 0 <= k < at ==> keys[k] != sig
      {
        at := at + 1;
      }
      AddLayer(groups, ls, i, at);
      if at == |keys| {
        keys, groups := keys + [sig], groups + [[ls[i]]];
      } else {
        groups := groups[at := groups[at] + [ls[i]]];
      }
    }
    assert ls[..|ls|] == ls;
  }

  lemma NoLayers()
    ensures Grouped([], []) && Signatures([]) == []
  {
  }

  lemma {:induction false} SignaturesDistinct(ls: seq<Layer>)
    ensures NoDup(Signatures(ls))
    ensures forall l :: l in ls ==> Signature(l.tree) in Signatures(ls)
  {
    hide Signature;
    if ls != [] {
      SignaturesDistinct(ls[..|ls| - 1]);
      NoDupSnoc(Signatures(ls[..|ls| - 1]), Signature(ls[|ls| - 1].tree));
      assert forall l :: l in ls ==> l in ls[..|ls| - 1] || l == ls[|ls| - 1];
    }
  }

  lemma {:induction false} AlikeNone(ls: seq<Layer>, sig: string)
    requires sig !in Signatures(ls)
    ensures Alike(ls, sig) == []
  {
    hide Signature;
    if ls != [] { AlikeNone(ls[..|ls| - 1], sig); }
  }

  lemma AddLayer(groups: seq<seq<Layer>>, ls: seq<Layer>, i: nat, at: nat)
    requires i < |ls| && Grouped(groups, ls[..i]) && at <= |groups|
    requires var keys, sig := Signatures(ls[..i]), Signature(ls[i].tree);
             (forall k :: 0 <= k < at && k < |keys| ==> keys[k] != sig) &&
                 (at < |groups| && at < |keys| ==> keys[at] == sig)
    ensures var keys, sig := Signatures(ls[..i]), Signature(ls[i].tree);
            if at == |groups| then Grouped(groups + [[ls[i]]], ls[..i + 1]) && Signatures(ls[..i + 1]) == keys + [sig]
            else Grouped(groups[at := groups[at] + [ls[i]]], ls[..i + 1]) && Signatures(ls[..i + 1]) == keys
  {
    hide Signature;
    var keys, sig := Signatures(ls[..i]), Signature(ls[i].tree);
    assert ls[..i + 1][..i] == ls[..i];
    SignaturesDistinct(ls[..i]);
    if at == |groups| { AlikeNone(ls[..i], sig); }
  }

  /** Where a layer went: into the one group of its signature, next to layers that are the same tree. */
  lemma LayerInOneGroup(groups: seq<seq<Layer>>, ls: seq<Layer>, l: Layer)
    requires Grouped(groups, ls) && l in ls
    requires forall m :: m in ls ==> Clean(m.tree)
    ensures exists g :: 0 <= g < |groups| && l in groups[g]
    ensures forall g, h :: 0 <= g < |groups| && 0 <= h < |groups| && l in groups[g] && l in groups[h] ==> g == h
    ensures forall g, m :: 0 <= g < |groups| && l in groups[g] && m in groups[g] ==> m.tree == l.tree
  {
    hide Signature, Clean;
    SignaturesDistinct(ls);
    var sigs := Signatures(ls);
    var at :| 0 <= at < |sigs| && sigs[at] == Signature(l.tree);
    AlikeHas(ls, sigs[at], l);
    assert l in groups[at];
    forall g, m | 0 <= g < |groups| && m in groups[g] ensures Signature(m.tree) == sigs[g] && m in ls {
      AlikeHas(ls, sigs[g], m);
    }
    forall g, m | 0 <= g < |groups| && l in groups[g] && m in groups[g] ensures m.tree == l.tree {
      SignatureInjective(m.tree, l.tree);
    }
  }

  lemma {:induction false} AlikeHas(ls: seq<Layer>, sig: string, l: Layer)
    ensures l in Alike(ls, sig) <==> l in ls && Signature(l.tree) == sig
  {
    hide Signature;
    if ls != [] { AlikeHas(ls[..|ls| - 1], sig, l); }
  }

  ghost function Flatten(groups: seq<seq<Layer>>): multiset<Layer> {
    if groups == [] then multiset{} else Flatten(groups[..|groups| - 1]) + multiset(groups[|groups| - 1])
  }

  /** The groups hold each numbered child once: nothing is dropped and nothing printed twice. */
  lemma {:induction false} GroupsPartition(groups: seq<seq<Layer>>, ls: seq<Layer>)
    requires Grouped(groups, ls)
    ensures Flatten(groups) == multiset(ls)
    decreases |ls|
  {
    hide Signature, Alike, Signatures, Grouped, Flatten;
    if ls == [] {
      NoLayers();
      GroupedOnce(groups, [], ls);
      FlattenNone();
    } else {
      var n := |ls| - 1;
      var prev := Dictionary(ls[..n]);
      GroupsPartition(prev, ls[..n]);
      assert ls == ls[..n] + [ls[n]] && ls[..n + 1] == ls;
      var at := KeyOf(prev, ls, n);
      AddLayer(prev, ls, n, at);
      if at == |prev| {
        GroupedOnce(groups, prev + [[ls[n]]], ls);
        FlattenSnoc(prev, [ls[n]]);
      } else {
        GroupedOnce(groups, prev[at := prev[at] + [ls[n]]], ls);
        FlattenGrow(prev, at, ls[n]);
      }
    }
  }

  lemma FlattenNone()
    ensures Flatten([]) == multiset{}
  {
  }

  lemma GroupedOnce(a: seq<seq<Layer>>, b: seq<seq<Layer>>, ls: seq<Layer>)
    requires Grouped(a, ls) && Grouped(b, ls)
    ensures a == b
  {
    hide Alike, Signatures;
  }

  function Dictionary(ls: seq<Layer>): (r: seq<seq<Layer>>)
    ensures Grouped(r, ls)
  {
    var sigs := Signatures(ls);
    seq(|sigs|, g requires 0 <= g < |sigs| => Alike(ls, sigs[g]))
  }

  /** The position of a layer's signature among the keys, or the end. */
  lemma KeyOf(groups: seq<seq<Layer>>, ls: seq<Layer>, i: nat) returns (at: nat)
    requires i < |ls| && Grouped(groups, ls[..i])
    ensures at <= |groups|
    ensures var keys, sig := Signatures(ls[..i]), Signature(ls[i].tree);
            |keys| == |groups| && (forall k :: 0 <= k < at ==> keys[k] != sig) && (at < |groups| ==> keys[at] == sig)
  {
    hide Signature, Signatures, Alike;
    var keys, sig := Signatures(ls[..i]), Signature(ls[i].tree);
    at := 0;
    while at < |keys| && keys[at] != sig
      invariant at <= |keys| && forall k :: 0 <= k < at ==> keys[k] != sig
    {
      at := at + 1;
    }
  }

  lemma FlattenSnoc(groups: seq<seq<Layer>>, g: seq<Layer>)
    ensures Flatten(groups + [g]) == Flatten(groups) + multiset(g)
  {
    assert (groups + [g])[..|groups|] == groups;
  }

  lemma FlattenGrow(groups: seq<seq<Layer>>, at: nat, l: Layer)
    requires at < |groups|
    ensures Flatten(groups[at := groups[at] + [l]]) == Flatten(groups) + multiset{l}
  {
    hide Flatten;
    var a, g, b := groups[..at], groups[at], groups[at + 1..];
    assert groups == a + [g] + b && groups[at := g + [l]] == a + [g + [l]] + b;
    FlattenAround(a, b, g);
    FlattenAround(a, b, g + [l]);
    assert multiset(g + [l]) == multiset(g) + multiset{l};
  }

  // ------------------------------------------------------------------ nothing is lost

  /** What is printed for a group: its index ranges and one tree. */
  datatype Heading = Heading(ranges: seq<Range>, tree: Tree)

  function IndicesOf(g: seq<Layer>): seq<int> { seq(|g|, i requires 0 <= i < |g| => g[i].index) }

  ghost predicate Heads(h: Heading, g: seq<Layer>) {
    g != [] && h.ranges != [] && Expand(h.ranges) == Sort(IndicesOf(g)) && h.tree == g[0].tree
  }

  ghost predicate SameTree(g: seq<Layer>, t: Tree) { forall i :: 0 <= i < |g| ==> g[i].tree == t }

  lemma {:induction false} CountByIndex(g: seq<Layer>, t: Tree, l: Layer)
    requires SameTree(g, t)
    ensures multiset(g)[l] == if l.tree == t then multiset(IndicesOf(g))[l.index] else 0
  {
    if g != [] {
      var n := |g| - 1;
      CountByIndex(g[..n], t, l);
      assert g == g[..n] + [g[n]];
      assert IndicesOf(g) == IndicesOf(g[..n]) + [g[n].index];
    }
  }

  /** The heading of a group of equal trees determines the group up to order. */
  lemma HeadingDetermines(h: Heading, g: seq<Layer>, k: Heading, f: seq<Layer>)
    requires Heads(h, g) && Heads(k, f) && SameTree(g, h.tree) && SameTree(f, k.tree)
    requires RangesText(h.ranges) == RangesText(k.ranges) && h.tree == k.tree
    ensures multiset(g) == multiset(f)
  {
    hide Sort, Expand, RangesText;
    TextDeterminesIndices(IndicesOf(g), h.ranges, IndicesOf(f), k.ranges);
    forall l: Layer ensures multiset(g)[l] == multiset(f)[l] {
      CountByIndex(g, h.tree, l);
      CountByIndex(f, k.tree, l);
    }
  }

  lemma {:induction false} FlattenAlike(a: seq<seq<Layer>>, b: seq<seq<Layer>>)
    requires |a| == |b| && forall g :: 0 <= g < |a| ==> multiset(a[g]) == multiset(b[g])
    ensures Flatten(a) == Flatten(b)
  {
    if a != [] { FlattenAlike(a[..|a| - 1], b[..|b| - 1]); }
  }

  lemma {:induction false} FlattenAround(a: seq<seq<Layer>>, b: seq<seq<Layer>>, g: seq<Layer>)
    ensures Flatten(a + [g] + b) == Flatten(a + b) + multiset(g)
  {
    if b == [] {
      assert a + [g] + b == a + [g] && a + b == a;
      FlattenSnoc(a, g);
    } else {
      var n := |b| - 1;
      FlattenAround(a, b[..n], g);
      assert a + [g] + b == (a + [g] + b[..n]) + [b[n]] && a + b == (a + b[..n]) + [b[n]];
      FlattenSnoc(a + [g] + b[..n], b[n]);
      FlattenSnoc(a + b[..n], b[n]);
    }
  }

  lemma WithoutOne(a: seq<seq<Layer>>, x: seq<Layer>, b: seq<seq<Layer>>, c: seq<seq<Layer>>)
    requires multiset(a + [x]) == multiset(b + [x] + c)
    ensures multiset(a) == multiset(b + c)
  {
    assert multiset(a) == multiset(a + [x]) - multiset{x};
    assert multiset(b + c) == multiset(b + [x] + c) - multiset{x};
  }

  /** The order in which groups are printed does not matter. */
  lemma {:induction false} FlattenPermuted(a: seq<seq<Layer>>, b: seq<seq<Layer>>)
    requires multiset(a) == multiset(b)
    ensures Flatten(a) == Flatten(b)
    decreases |a|
  {
    hide Flatten;
    if a == [] {
      assert |multiset(b)| == |b| && b == [];
    } else {
      var n := |a| - 1;
      assert a == a[..n] + [a[n]];
      assert a[n] in multiset(b);
      var k :| 0 <= k < |b| && b[k] == a[n];
      assert b == b[..k] + [b[k]] + b[k + 1..];
      FlattenAround(b[..k], b[k + 1..], a[n]);
      FlattenSnoc(a[..n], a[n]);
      WithoutOne(a[..n], a[n], b[..k], b[k + 1..]);
      FlattenPermuted(a[..n], b[..k] + b[k + 1..]);
    }
  }

  /** `printed` lists the groups of `ls` in some order, each under a heading of its own. */
  ghost predicate Printed(printed: seq<seq<Layer>>, heads: seq<Heading>, ls: seq<Layer>) {
    && multiset(printed) == multiset(Dictionary(ls)) && |heads| == |printed|
    && forall g :: 0 <= g < |printed| ==> Heads(heads[g], printed[g])
  }

  lemma PrintedTrees(printed: seq<seq<Layer>>, heads: seq<Heading>, ls: seq<Layer>, g: nat)
    requires Printed(printed, heads, ls) && g < |printed| && forall m :: m in ls ==> Clean(m.tree)
    ensures SameTree(printed[g], heads[g].tree)
  {
    hide Clean, Sort, Expand, Signature;
    assert printed[g] in multiset(printed);
    var d := Dictionary(ls);
    var k :| 0 <= k < |d| && d[k] == printed[g];
    forall i | 0 <= i < |d[k]| ensures d[k][i].tree == d[k][0].tree {
      AlikeHas(ls, Signatures(ls)[k], d[k][0]);
      assert d[k][0] in d[k] && d[k][i] in d[k];
      LayerInOneGroup(d, ls, d[k][0]);
    }
  }

  lemma HeadingsDetermine(a: seq<seq<Layer>>, hs: seq<Heading>, ls: seq<Layer>, b: seq<seq<Layer>>, ks: seq<Heading>,
                          ms: seq<Layer>)
    requires Printed(a, hs, ls) && Printed(b, ks, ms) && |hs| == |ks|
    requires (forall m :: m in ls ==> Clean(m.tree)) && (forall m :: m in ms ==> Clean(m.tree))
    requires forall g :: 0 <= g < |hs| ==>
             RangesText(hs[g].ranges) == RangesText(ks[g].ranges) && hs[g].tree == ks[g].tree
    ensures multiset(ls) == multiset(ms)
  {
    hide Clean, Heads, Flatten, RangesText, Dictionary, Grouped;
    forall g | 0 <= g < |a| ensures multiset(a[g]) == multiset(b[g]) {
      PrintedTrees(a, hs, ls, g);
      PrintedTrees(b, ks, ms, g);
      HeadingDetermines(hs[g], a[g], ks[g], b[g]);
    }
    FlattenAlike(a, b);
    FlattenPermuted(a, Dictionary(ls));
    FlattenPermuted(b, Dictionary(ms));
    GroupsPartition(Dictionary(ls), ls);
    GroupsPartition(Dictionary(ms), ms);
  }

  /**
   Collapsing loses nothing: two modules whose headings print the same ranges over the same trees have the same
   numbered children, index by index.
   */
  lemma CollapseLossless(cs: seq<Child>, a: seq<seq<Layer>>, hs: seq<Heading>, ds: seq<Child>, b: seq<seq<Layer>>,
                         ks: seq<Heading>,
                         num: string -> Option<int>)
    requires CleanForest(cs) && CleanForest(ds)
    requires Printed(a, hs, Numbered(cs, num)) && Printed(b, ks, Numbered(ds, num)) && |hs| == |ks|
    requires forall g :: 0 <= g < |hs| ==>
             RangesText(hs[g].ranges) == RangesText(ks[g].ranges) && hs[g].tree == ks[g].tree
    ensures multiset(Numbered(cs, num)) == multiset(Numbered(ds, num))
  {
    hide Clean, CleanForest, Numbered, Printed, RangesText;
    NumberedClean(cs, num);
    NumberedClean(ds, num);
    HeadingsDetermine(a, hs, Numbered(cs, num), b, ks, Numbered(ds, num));
  }
}
