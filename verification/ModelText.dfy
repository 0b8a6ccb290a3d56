/**
 The printed text of a module tree, line by line: numbered children collapsed into groups, named ones after them, each
 level indented by two blanks. The text determines the tree.
 */
module ModelText {
  import opened Lists
  import opened Text
  import opened ModelInspection

  // ------------------------------------------------------------------ indented outlines

  /** A line's text without its indentation and opening parenthesis, and the lines nested under it. */
  datatype Outline = Outline(text: string, subs: seq<Outline>)

  function Blank(k: nat): string { seq(2 * k, _ => ' ') }

  function Render(o: Outline, k: nat): seq<string>
    decreases o
  {
    if o.subs == [] then [Blank(k) + o.text]
    else [Blank(k) + o.text + "("] + RenderAll(o.subs, k + 1) + [Blank(k) + ")"]
  }

  function RenderAll(os: seq<Outline>, k: nat): seq<string>
    decreases os
  {
    if os == [] then [] else Render(os[0], k) + RenderAll(os[1..], k)
  }

  /** One line that does not begin with a blank. */
  predicate Solid(text: string) { text != [] && text[0] != ' ' && '\n' !in text }

  ghost predicate SolidAll(os: seq<Outline>)
    decreases os
  {
    os != [] ==> Solid(os[0].text) && SolidAll(os[0].subs) && SolidAll(os[1..])
  }

  /** How far a line is indented. */
  function Lead(line: string): nat {
    if line == [] || line[0] != ' ' then 0 else 1 + Lead(line[1..])
  }

  lemma {:induction false} LeadBlanks(n: nat, text: string)
    requires Solid(text)
    ensures Lead(seq(n, _ => ' ') + text) == n
  {
    var line := seq(n, _ => ' ') + text;
    if n > 0 {
      assert line[1..] == seq(n - 1, _ => ' ') + text;
      LeadBlanks(n - 1, text);
    }
  }

  /** Nothing left, or a line indented less than `k` levels comes next. */
  ghost predicate Shallow(lines: seq<string>, k: nat) { lines != [] ==> Lead(lines[0]) < 2 * k }

  /** The head line of an outline and everything after it. */
  lemma HeadLine(os: seq<Outline>, k: nat, rest: seq<string>)
    requires os != [] && SolidAll(os)
    ensures var all := RenderAll(os, k) + rest;
            && all != [] && all[0] == Blank(k) + os[0].text + (if os[0].subs == [] then "" else "(") &&
               Lead(all[0]) == 2 * k
            && all[1..] == if os[0].subs == [] then RenderAll(os[1..], k) + rest
                           else RenderAll(os[0].subs, k + 1) + ([Blank(k) + ")"] + (RenderAll(os[1..], k) + rest))
  {
    hide SolidAll, Blank, Lead, RenderAll;
    var o, more := os[0], RenderAll(os[1..], k) + rest;
    SolidHead(os);
    HeadLead(k, o.text);
    Unrolled(os, k);
    if o.subs == [] {
      Leading(Blank(k) + o.text, [], RenderAll(os[1..], k), rest);
      assert Blank(k) + o.text + "" == Blank(k) + o.text;
    } else {
      var head, subs, close := Blank(k) + o.text + "(", RenderAll(o.subs, k + 1), [Blank(k) + ")"];
      Leading(head, subs + close, RenderAll(os[1..], k), rest);
      Regrouped(subs, close, more);
    }
  }

  lemma HeadLead(k: nat, text: string)
    requires Solid(text)
    ensures Lead(Blank(k) + text) == 2 * k && Lead(Blank(k) + text + "(") == 2 * k
  {
    LeadBlanks(2 * k, text);
    LeadBlanks(2 * k, text + "(");
    assert Blank(k) + text + "(" == Blank(k) + (text + "(");
  }

  lemma Unrolled(os: seq<Outline>, k: nat)
    requires os != []
    ensures os[0].subs == [] ==> RenderAll(os, k) == [Blank(k) + os[0].text] + [] + RenderAll(os[1..], k)
    ensures os[0].subs != [] ==>
              RenderAll(os, k) == [Blank(k) + os[0].text + "("] + (RenderAll(os[0].subs, k + 1) + [Blank(k) + ")"]) +
                  RenderAll(os[1..], k)
  {
    hide Blank;
    assert RenderAll(os, k) == Render(os[0], k) + RenderAll(os[1..], k);
    if os[0].subs != [] {
      var head, subs, close := [Blank(k) + os[0].text + "("], RenderAll(os[0].subs, k + 1), [Blank(k) + ")"];
      assert Render(os[0], k) == head + subs + close;
      Regrouped(head, subs, close);
    }
  }

  lemma Regrouped(a: seq<string>, b: seq<string>, c: seq<string>)
    ensures (a + b) + c == a + (b + c)
  {
  }

  lemma Leading(head: string, a: seq<string>, b: seq<string>, c: seq<string>)
    ensures var all := [head] + a + b + c; all != [] && all[0] == head && all[1..] == a + (b + c)
  {
  }

  lemma SolidHead(os: seq<Outline>)
    requires os != [] && SolidAll(os)
    ensures Solid(os[0].text) && SolidAll(os[0].subs) && SolidAll(os[1..])
  {
  }

  lemma CloseShallow(k: nat, lines: seq<string>)
    ensures Shallow([Blank(k) + ")"] + lines, k + 1)
  {
    LeadBlanks(2 * k, ")");
  }

  /** What follows a line without nested lines is not nested under it. */
  lemma AfterLeaf(os: seq<Outline>, k: nat, rest: seq<string>)
    requires SolidAll(os) && Shallow(rest, k)
    ensures Shallow(RenderAll(os, k) + rest, k + 1)
  {
    if os == [] {
      assert RenderAll(os, k) + rest == rest;
    } else {
      HeadLine(os, k, rest);
    }
  }

  /** What follows a line with nested lines is. */
  lemma AfterOpen(o: Outline, k: nat, rest: seq<string>)
    requires SolidAll(o.subs) && o.subs != []
    ensures !Shallow(RenderAll(o.subs, k + 1) + rest, k + 1)
  {
    HeadLine(o.subs, k + 1, rest);
  }

  /** Indentation alone says where an outline ends, so its lines have one reading. */
  lemma {:induction false} RenderInjective(os: seq<Outline>, ps: seq<Outline>, k: nat, rest: seq<string>,
                                           other: seq<string>)
    requires RenderAll(os, k) + rest == RenderAll(ps, k) + other && SolidAll(os) && SolidAll(ps)
    requires Shallow(rest, k) && Shallow(other, k)
    ensures os == ps && rest == other
    decreases os
  {
    hide RenderAll, SolidAll, Blank;
    NoLines(os, ps, k);
    if os == [] {
      assert RenderAll(os, k) + rest == rest;
      if ps != [] { HeadLine(ps, k, other); }
    } else if ps == [] {
      assert RenderAll(ps, k) + other == other;
      HeadLine(os, k, rest);
    } else {
      HeadLine(os, k, rest);
      HeadLine(ps, k, other);
      SolidHead(os);
      SolidHead(ps);
      var o, p, more, others := os[0], ps[0], RenderAll(os[1..], k) + rest, RenderAll(ps[1..], k) + other;
      SameNesting(o, p, k, os[1..], ps[1..], rest, other);
      SameText(Blank(k), o.text, p.text, if o.subs == [] then "" else "(");
      if o.subs != [] {
        CloseShallow(k, more);
        CloseShallow(k, others);
        RenderInjective(o.subs, p.subs, k + 1, [Blank(k) + ")"] + more, [Blank(k) + ")"] + others);
        assert more == ([Blank(k) + ")"] + more)[1..] && others == ([Blank(k) + ")"] + others)[1..];
      }
      RenderInjective(os[1..], ps[1..], k, rest, other);
      assert os == [o] + os[1..] && ps == [p] + ps[1..];
    }
  }

  lemma NoLines(os: seq<Outline>, ps: seq<Outline>, k: nat)
    ensures os == [] ==> RenderAll(os, k) == []
    ensures ps == [] ==> RenderAll(ps, k) == []
  {
  }

  lemma SameText(blank: string, x: string, y: string, open: string)
    requires blank + x + open == blank + y + open
    ensures x == y
  {
    var line := blank + x + open;
    assert x == line[|blank|..|line| - |open|] && y == (blank + y + open)[|blank|..|line| - |open|];
  }

  /** Whether lines are nested under the head line shows in the line after it. */
  lemma SameNesting(o: Outline, p: Outline, k: nat, os: seq<Outline>, ps: seq<Outline>, rest: seq<string>,
                    other: seq<string>)
    requires SolidAll(os) && SolidAll(ps) && SolidAll(o.subs) && SolidAll(p.subs) && Shallow(rest, k) &&
             Shallow(other, k)
    requires (if o.subs == [] then RenderAll(os, k) + rest
              else RenderAll(o.subs, k + 1) + ([Blank(k) + ")"] + (RenderAll(os, k) + rest))) ==
             (if p.subs == [] then RenderAll(ps, k) + other
              else RenderAll(p.subs, k + 1) + ([Blank(k) + ")"] + (RenderAll(ps, k) + other)))
    ensures (o.subs == []) == (p.subs == [])
  {
    hide RenderAll, SolidAll, Blank, Shallow;
    if o.subs == [] {
      AfterLeaf(os, k, rest);
    } else {
      AfterOpen(o, k, [Blank(k) + ")"] + (RenderAll(os, k) + rest));
    }
    if p.subs == [] {
      AfterLeaf(ps, k, other);
    } else {
      AfterOpen(p, k, [Blank(k) + ")"] + (RenderAll(ps, k) + other));
    }
  }

  // ------------------------------------------------------------------ pages and their lines

  /** A module as printed: its info, the collapsed groups of its numbered children, and its named children. */
  datatype Page = Page(info: string, groups: seq<Group>, named: seq<Item>)
  datatype Group = Group(ranges: seq<Range>, page: Page)
  datatype Item = Item(name: string, page: Page)

  function NameLabel(name: string): string { if name == "" then "" else "(" + name + "): " }

  function GroupLabel(ranges: seq<Range>): string {
    "(" + RangesText(ranges) + "): " + Count(ranges)
  }

  /** How many members a group has, when there are several. */
  function Count(rs: seq<Range>): string {
    if |Expand(rs)| > 1 then Decimal(|Expand(rs)|) + " x " else ""
  }

  /** `lstrip` on a line whose only leading white space is blanks. */
  function Lstrip(line: string): string {
    if line == [] || line[0] != ' ' then line else Lstrip(line[1..])
  }

  /** The recursive formatting. A group's lines are its first member's, with the first line stripped and labelled. */
  function Lines(p: Page, name: string, k: nat): (r: seq<string>)
    ensures r != []
    decreases p
  {
    var head := Blank(k) + NameLabel(name) + p.info;
    if p.groups == [] && p.named == [] then [head]
    else [head + "("] + (GroupLines(p.groups, k + 1) + ItemLines(p.named, k + 1)) + [Blank(k) + ")"]
  }

  function GroupLines(gs: seq<Group>, k: nat): seq<string>
    decreases gs
  {
    if gs == [] then []
    else
      var child := Lines(gs[0].page, "", k);
      [Blank(k) + GroupLabel(gs[0].ranges) + Lstrip(child[0])] + child[1..] + GroupLines(gs[1..], k)
  }

  function ItemLines(items: seq<Item>, k: nat): seq<string>
    decreases items
  {
    if items == [] then [] else Lines(items[0].page, items[0].name, k) + ItemLines(items[1..], k)
  }

  /** The number in front of a group is the number of its members, and there is none in front of a single one. */
  lemma CountIsMembers(indices: seq<int>)
    ensures |indices| <= 1 ==> Count(RangesOf(indices)) == ""
    ensures |indices| > 1 ==>
              exists digits :: Count(RangesOf(indices)) == digits + " x " && Value(digits) == |indices|
  {
    RangesExpand(indices);
    DecimalValue(|indices|);
    assert |indices| > 1 ==> Count(RangesOf(indices)) == Decimal(|indices|) + " x ";
  }

  lemma {:induction false} SpanSize(lo: int, hi: int)
    requires lo <= hi + 1
    ensures |Span(lo, hi)| == hi - lo + 1
    decreases hi - lo
  {
    if lo <= hi { SpanSize(lo, hi - 1); }
  }

  lemma TwoRanges(a: Range, b: Range)
    requires a.lo <= a.hi && b.lo <= b.hi
    ensures |Expand([a, b])| == a.hi - a.lo + 1 + (b.hi - b.lo + 1)
  {
    var rs := [a, b];
    assert rs[..1] == [a] && [a][..0] == [];
    assert Expand([a]) == Span(a.lo, a.hi);
    assert Expand(rs) == Expand(rs[..1]) + Span(b.lo, b.hi);
    SpanSize(a.lo, a.hi);
    SpanSize(b.lo, b.hi);
  }

  lemma TwoRangesText(a: Range, b: Range)
    ensures RangesText([a, b]) == RangeText(a) + ", " + RangeText(b)
  {
    hide RangeText;
    var rs := [a, b];
    assert rs[1..] == [b];
    assert RangeText(a) + "," + (" " + RangeText(b)) == RangeText(a) + ", " + RangeText(b);
  }

  lemma RangeTexts()
    ensures RangeText(Range(0, 27)) == "0-27" && RangeText(Range(29, 47)) == "29-47"
    ensures RangeText(Range(28, 28)) == "28" && RangeText(Range(48, 48)) == "48"
    ensures Decimal(47) == "47" && Decimal(2) == "2"
  {
    TwoDigits(2, 7);
    TwoDigits(2, 9);
    TwoDigits(4, 7);
    TwoDigits(2, 8);
    TwoDigits(4, 8);
  }

  lemma TwoDigits(a: nat, b: nat)
    requires 0 < a < 10 && b < 10
    ensures Decimal(10 * a + b) == [Digit(a), Digit(b)]
  {
    assert (10 * a + b) / 10 == a && (10 * a + b) % 10 == b;
  }

  lemma FirstLabel()
    ensures GroupLabel([Range(0, 27), Range(29, 47)]) == "(0-27, 29-47): 47 x "
  {
    hide RangeText, Decimal, RangesText, Expand;
    RangeTexts();
    TwoRanges(Range(0, 27), Range(29, 47));
    TwoRangesText(Range(0, 27), Range(29, 47));
    assert Count([Range(0, 27), Range(29, 47)]) == "47 x ";
    assert RangesText([Range(0, 27), Range(29, 47)]) == "0-27, 29-47";
  }

  lemma SecondLabel()
    ensures GroupLabel([Range(28, 28), Range(48, 48)]) == "(28, 48): 2 x "
  {
    hide RangeText, Decimal, RangesText, Expand;
    RangeTexts();
    TwoRanges(Range(28, 28), Range(48, 48));
    TwoRangesText(Range(28, 28), Range(48, 48));
    assert Count([Range(28, 28), Range(48, 48)]) == "2 x ";
    assert RangesText([Range(28, 28), Range(48, 48)]) == "28, 48";
  }

  lemma GroupsShown(a: Page, b: Page)
    requires a == Page("A", [], []) && b == Page("B", [], [])
    ensures GroupLines([Group([Range(0, 27), Range(29, 47)], a), Group([Range(28, 28), Range(48, 48)], b)], 2) ==
            ["    (0-27, 29-47): 47 x A", "    (28, 48): 2 x B"]
  {
    hide GroupLabel, Lstrip, GroupLines;
    FirstLabel();
    SecondLabel();
    var one, two := Group([Range(0, 27), Range(29, 47)], a), Group([Range(28, 28), Range(48, 48)], b);
    LeafLine("A", one.ranges, "(0-27, 29-47): 47 x ", [two]);
    LeafLine("B", two.ranges, "(28, 48): 2 x ", []);
    NoGroupLines();
    assert [one, two] == [one] + [two] && [two] == [two] + [];
    assert "    " + "(28, 48): 2 x " + "B" == "    (28, 48): 2 x B";
    assert "    " + "(0-27, 29-47): 47 x " + "A" == "    (0-27, 29-47): 47 x A";
  }

  lemma NoGroupLines()
    ensures GroupLines([], 2) == []
  {
  }

  /** Two groups as the documentation shows them, and a named child behind them. */
  lemma DocumentedLines()
    ensures var odd, even := [Range(0, 27), Range(29, 47)], [Range(28, 28), Range(48, 48)];
            var p := Page("L", [Group(odd, Page("A", [], [])), Group(even, Page("B", [], []))],
                          [Item("n", Page("C", [], []))]);
            Lines(p, "m", 1) ==
            ["  (m): L(", "    (0-27, 29-47): 47 x A", "    (28, 48): 2 x B", "    (n): C", "  )"]
  {
    hide GroupLabel, Lstrip, GroupLines, ItemLines, NameLabel;
    GroupsShown(Page("A", [], []), Page("B", [], []));
    NamedLine();
    assert Blank(1) == "  " && NameLabel("m") == "(m): " by { OneLetter(); }
    assert "  " + "(m): " + "L" + "(" == "  (m): L(" && "  " + ")" == "  )";
  }

  lemma OneLetter()
    ensures NameLabel("m") == "(m): " && NameLabel("n") == "(n): "
  {
  }

  lemma NamedLine()
    ensures ItemLines([Item("n", Page("C", [], []))], 2) == ["    (n): C"]
  {
    hide NameLabel;
    var item := Item("n", Page("C", [], []));
    assert [item][1..] == [];
    OneLetter();
    assert Blank(2) == "    " && "    " + "(n): " + "C" == "    (n): C";
  }

  lemma LeafLine(info: string, rs: seq<Range>, text: string, gs: seq<Group>)
    requires info != [] && info[0] != ' ' && GroupLabel(rs) == text
    ensures GroupLines([Group(rs, Page(info, [], []))] + gs, 2) == ["    " + text + info] + GroupLines(gs, 2)
  {
    hide GroupLabel, Lstrip;
    var all := [Group(rs, Page(info, [], []))] + gs;
    assert Blank(2) == "    " && all[1..] == gs;
    assert Lines(Page(info, [], []), "", 2) == ["    " + info] by { assert "    " + "" + info == "    " + info; }
    StripFour(info);
  }

  lemma StripFour(info: string)
    requires info != [] && info[0] != ' '
    ensures Lstrip("    " + info) == info
  {
    var s := "    " + info;
    assert s[1..] == "   " + info && s[1..][1..] == "  " + info;
    assert s[1..][1..][1..] == " " + info && s[1..][1..][1..][1..] == info;
    assert Lstrip(info) == info;
    assert Lstrip(" " + info) == info;
    assert Lstrip("  " + info) == info;
    assert Lstrip("   " + info) == info;
  }

  // ------------------------------------------------------------------ lines are an outline

  function OutlineOf(p: Page, tag: string): Outline
    decreases p
  {
    Outline(tag + p.info, GroupOutlines(p.groups) + ItemOutlines(p.named))
  }

  function GroupOutlines(gs: seq<Group>): (r: seq<Outline>)
    ensures |r| == |gs|
    decreases gs
  {
    if gs == [] then [] else [OutlineOf(gs[0].page, GroupLabel(gs[0].ranges))] + GroupOutlines(gs[1..])
  }

  function ItemOutlines(items: seq<Item>): (r: seq<Outline>)
    ensures |r| == |items|
    decreases items
  {
    if items == [] then [] else [OutlineOf(items[0].page, NameLabel(items[0].name))] + ItemOutlines(items[1..])
  }

  ghost predicate Steps(s: seq<int>) { forall i, j :: 0 <= i < j < |s| ==> s[i] < s[j] }

  /** The ranges of some group with indices of its own. */
  ghost predicate IsRanges(rs: seq<Range>) { exists s :: s != [] && Steps(s) && rs == RangesOf(s) }

  /** What is printed for such a group's indices. */
  ghost predicate IsLabel(name: string) { exists s :: s != [] && Steps(s) && name == RangesText(RangesOf(s)) }

  /** Names that cannot be taken for a group's label. */
  ghost predicate NameOk(name: string) { name != [] && ':' !in name && '\n' !in name && !IsLabel(name) }

  ghost predicate Fine(p: Page)
    decreases p
  {
    Solid(p.info) && FineGroups(p.groups) && FineItems(p.named)
  }

  ghost predicate FineGroups(gs: seq<Group>)
    decreases gs
  {
    gs != [] ==> IsRanges(gs[0].ranges) && Fine(gs[0].page) && FineGroups(gs[1..])
  }

  ghost predicate FineItems(items: seq<Item>)
    decreases items
  {
    items != [] ==> NameOk(items[0].name) && Fine(items[0].page) && FineItems(items[1..])
  }

  lemma {:induction false} RenderConcat(a: seq<Outline>, b: seq<Outline>, k: nat)
    ensures RenderAll(a + b, k) == RenderAll(a, k) + RenderAll(b, k)
  {
    hide Render;
    if a == [] {
      assert a + b == b;
    } else {
      assert (a + b)[0] == a[0] && (a + b)[1..] == a[1..] + b;
      RenderConcat(a[1..], b, k);
      Regrouped(Render(a[0], k), RenderAll(a[1..], k), RenderAll(b, k));
    }
  }

  lemma {:induction false} StripBlanks(n: nat, text: string)
    requires Solid(text)
    ensures Lstrip(seq(n, _ => ' ') + text) == text
  {
    var line := seq(n, _ => ' ') + text;
    if n == 0 {
      assert line == text;
    } else {
      assert line[1..] == seq(n - 1, _ => ' ') + text;
      StripBlanks(n - 1, text);
    }
  }

  lemma {:induction false} LinesRendered(p: Page, name: string, k: nat)
    requires Fine(p)
    ensures Lines(p, name, k) == Render(OutlineOf(p, NameLabel(name)), k)
    decreases p
  {
    hide Blank, NameLabel;
    GroupsRendered(p.groups, k + 1);
    ItemsRendered(p.named, k + 1);
    RenderConcat(GroupOutlines(p.groups), ItemOutlines(p.named), k + 1);
    assert Blank(k) + NameLabel(name) + p.info == Blank(k) + (NameLabel(name) + p.info);
  }

  lemma {:induction false} GroupsRendered(gs: seq<Group>, k: nat)
    requires FineGroups(gs)
    ensures GroupLines(gs, k) == RenderAll(GroupOutlines(gs), k)
    decreases gs
  {
    hide Blank, GroupLabel, Lines, Lstrip, Render;
    if gs != [] {
      var page, tag := gs[0].page, GroupLabel(gs[0].ranges);
      LinesRendered(page, "", k);
      GroupsRendered(gs[1..], k);
      Relabelled(page, tag, k);
      var os := GroupOutlines(gs);
      assert os[0] == OutlineOf(page, tag) && os[1..] == GroupOutlines(gs[1..]);
    }
  }

  /** Stripping a first line and labelling it is labelling the module to begin with. */
  lemma Relabelled(p: Page, tag: string, k: nat)
    requires Fine(p)
    ensures var child := Render(OutlineOf(p, NameLabel("")), k);
            child != [] && [Blank(k) + tag + Lstrip(child[0])] + child[1..] == Render(OutlineOf(p, tag), k)
  {
    hide Lstrip, RenderAll, GroupOutlines, ItemOutlines, Blank;
    var open := if OutlineOf(p, tag).subs == [] then "" else "(";
    assert "" + p.info == p.info;
    Stripped(p.info, open, k);
    Retagged(Blank(k), tag, p.info, open);
  }

  lemma Stripped(info: string, open: string, k: nat)
    requires Solid(info) && (open == "" || open == "(")
    ensures Lstrip(Blank(k) + info + open) == info + open && Blank(k) + info + "" == Blank(k) + info
  {
    StripBlanks(2 * k, info + open);
    assert Blank(k) + info + open == Blank(k) + (info + open);
  }

  lemma Retagged(blank: string, tag: string, info: string, open: string)
    ensures blank + tag + (info + open) == blank + (tag + info) + open
    ensures blank + (tag + info) + "" == blank + (tag + info)
  {
  }

  lemma {:induction false} ItemsRendered(items: seq<Item>, k: nat)
    requires FineItems(items)
    ensures ItemLines(items, k) == RenderAll(ItemOutlines(items), k)
    decreases items
  {
    hide Blank, NameLabel, Lines, Render;
    if items != [] {
      LinesRendered(items[0].page, items[0].name, k);
      ItemsRendered(items[1..], k);
      var os := ItemOutlines(items);
      assert os[0] == OutlineOf(items[0].page, NameLabel(items[0].name)) && os[1..] == ItemOutlines(items[1..]);
    }
  }

  // ------------------------------------------------------------------ an outline determines its page

  predicate RangeChar(c: char) { c in "-0123456789" }

  lemma IntegerChars(x: int)
    ensures IntText(x) != [] && forall c :: c in IntText(x) ==> RangeChar(c)
  {
    hide Decimal;
    assert forall c :: '0' <= c <= '9' ==> c in "-0123456789" by {
      forall c | '0' <= c <= '9' ensures c in "-0123456789" { DigitListed(c); }
    }
  }

  lemma DigitListed(c: char)
    requires '0' <= c <= '9'
    ensures c in "-0123456789"
  {
    var i := c as int - '0' as int;
    assert "-0123456789"[i + 1] == c;
  }

  lemma RangeChars(r: Range)
    ensures RangeText(r) != [] && forall c :: c in RangeText(r) ==> RangeChar(c)
  {
    hide IntText;
    IntegerChars(r.lo);
    IntegerChars(r.hi);
  }

  lemma {:induction false} RangesChars(rs: seq<Range>)
    requires rs != []
    ensures RangesText(rs) != [] && RangeChar(RangesText(rs)[0])
    ensures forall c :: c in RangesText(rs) ==> RangeChar(c) || c == ',' || c == ' '
  {
    hide RangeText;
    RangeChars(rs[0]);
    assert RangesText(rs)[0] == RangeText(rs[0])[0];
    if |rs| > 1 { RangesChars(rs[1..]); }
  }

  /** A label ends at its colon. */
  lemma LabelSplit(a: string, b: string, x: string, y: string)
    requires ':' !in a && ':' !in b && "(" + a + ")" + ":" + x == "(" + b + ")" + ":" + y
    ensures a == b && x == y
  {
    SplitOnce("(" + a + ")", "(" + b + ")", ':', x, y);
    assert a == ("(" + a + ")")[1..|a| + 1] && b == ("(" + b + ")")[1..|b| + 1];
  }

  lemma RangesSome(rs: seq<Range>)
    requires IsRanges(rs)
    ensures rs != []
  {
    var s :| s != [] && Steps(s) && rs == RangesOf(s);
    RangesExpand(s);
  }

  lemma GroupTagText(rs: seq<Range>, x: string)
    ensures GroupLabel(rs) + x == "(" + RangesText(rs) + ")" + ":" + (" " + Count(rs) + x)
  {
    hide RangesText, Count;
  }

  lemma GroupTagInjective(r: seq<Range>, q: seq<Range>, x: string, y: string)
    requires r != [] && q != [] && GroupLabel(r) + x == GroupLabel(q) + y
    ensures r == q && x == y
  {
    hide RangesText, Count, GroupLabel;
    RangesChars(r);
    RangesChars(q);
    GroupTagText(r, x);
    GroupTagText(q, y);
    LabelSplit(RangesText(r), RangesText(q), " " + Count(r) + x, " " + Count(q) + y);
    RangesTextInjective(r, q);
    SamePrefix(" " + Count(r), x, y);
  }

  lemma SamePrefix(a: string, x: string, y: string)
    requires a + x == a + y
    ensures x == y
  {
    assert x == (a + x)[|a|..] && y == (a + y)[|a|..];
  }

  lemma NameTagText(a: string, x: string)
    requires a != []
    ensures NameLabel(a) + x == "(" + a + ")" + ":" + (" " + x)
  {
  }

  lemma NameTagInjective(a: string, b: string, x: string, y: string)
    requires NameOk(a) && NameOk(b) && NameLabel(a) + x == NameLabel(b) + y
    ensures a == b && x == y
  {
    hide NameLabel;
    NameTagText(a, x);
    NameTagText(b, y);
    LabelSplit(a, b, " " + x, " " + y);
    SamePrefix(" ", x, y);
  }

  /** No name is taken for a group's label. */
  lemma KindsApart(r: seq<Range>, x: string, a: string, y: string)
    requires IsRanges(r) && NameOk(a)
    ensures GroupLabel(r) + x != NameLabel(a) + y
  {
    hide RangesText, Count, GroupLabel, NameLabel;
    RangesSome(r);
    RangesChars(r);
    GroupTagText(r, x);
    NameTagText(a, y);
    if GroupLabel(r) + x == NameLabel(a) + y {
      LabelSplit(RangesText(r), a, " " + Count(r) + x, " " + y);
    }
  }

  lemma {:induction false} PageInjective(p: Page, q: Page, tag: string)
    requires Fine(p) && Fine(q) && OutlineOf(p, tag) == OutlineOf(q, tag)
    ensures p == q
    decreases p
  {
    SamePrefix(tag, p.info, q.info);
    SameParts(p.groups, p.named, q.groups, q.named);
    GroupsInjective(p.groups, q.groups);
    ItemsInjective(p.named, q.named);
  }

  lemma {:induction false} GroupAt(gs: seq<Group>, i: nat)
    requires i < |gs| && FineGroups(gs)
    ensures IsRanges(gs[i].ranges) && GroupOutlines(gs)[i].text == GroupLabel(gs[i].ranges) + gs[i].page.info
    decreases gs
  {
    hide GroupLabel;
    if i > 0 { GroupAt(gs[1..], i - 1); }
  }

  lemma {:induction false} ItemAt(items: seq<Item>, i: nat)
    requires i < |items| && FineItems(items)
    ensures NameOk(items[i].name) && ItemOutlines(items)[i].text == NameLabel(items[i].name) + items[i].page.info
    decreases items
  {
    hide NameLabel;
    if i > 0 { ItemAt(items[1..], i - 1); }
  }

  /** The groups end where the first name comes. */
  lemma SameParts(gs: seq<Group>, items: seq<Item>, hs: seq<Group>, others: seq<Item>)
    requires FineGroups(gs) && FineItems(items) && FineGroups(hs) && FineItems(others)
    requires GroupOutlines(gs) + ItemOutlines(items) == GroupOutlines(hs) + ItemOutlines(others)
    ensures GroupOutlines(gs) == GroupOutlines(hs) && ItemOutlines(items) == ItemOutlines(others)
  {
    hide GroupOutlines, ItemOutlines, GroupLabel, NameLabel, FineGroups, FineItems;
    if |gs| < |hs| { NoGroupHere(gs, items, hs, others); }
    if |hs| < |gs| { NoGroupHere(hs, others, gs, items); }
    SameCut(GroupOutlines(gs), ItemOutlines(items), GroupOutlines(hs), ItemOutlines(others));
  }

  lemma SameCut(a: seq<Outline>, b: seq<Outline>, c: seq<Outline>, d: seq<Outline>)
    requires a + b == c + d && |a| == |c|
    ensures a == c && b == d
  {
    assert a == (a + b)[..|a|] && c == (c + d)[..|a|];
    assert b == (a + b)[|a|..] && d == (c + d)[|a|..];
  }

  lemma NoGroupHere(gs: seq<Group>, items: seq<Item>, hs: seq<Group>, others: seq<Item>)
    requires FineGroups(gs) && FineItems(items) && FineGroups(hs) && FineItems(others)
    requires |gs| < |hs|
    ensures GroupOutlines(gs) + ItemOutlines(items) != GroupOutlines(hs) + ItemOutlines(others)
  {
    hide GroupOutlines, ItemOutlines, GroupLabel, NameLabel, FineGroups, FineItems;
    var all, same := GroupOutlines(gs) + ItemOutlines(items), GroupOutlines(hs) + ItemOutlines(others);
    if all == same {
      var n := |gs|;
      assert all[n] == ItemOutlines(items)[0] && same[n] == GroupOutlines(hs)[n];
      ItemAt(items, 0);
      GroupAt(hs, n);
      KindsApart(hs[n].ranges, hs[n].page.info, items[0].name, items[0].page.info);
    }
  }

  lemma {:induction false} GroupsInjective(gs: seq<Group>, hs: seq<Group>)
    requires FineGroups(gs) && FineGroups(hs) && GroupOutlines(gs) == GroupOutlines(hs)
    ensures gs == hs
    decreases gs
  {
    hide GroupLabel;
    if gs != [] {
      var all, same := GroupOutlines(gs), GroupOutlines(hs);
      assert all[0] == OutlineOf(gs[0].page, GroupLabel(gs[0].ranges)) &&
             same[0] == OutlineOf(hs[0].page, GroupLabel(hs[0].ranges));
      RangesSome(gs[0].ranges);
      RangesSome(hs[0].ranges);
      GroupTagInjective(gs[0].ranges, hs[0].ranges, gs[0].page.info, hs[0].page.info);
      PageInjective(gs[0].page, hs[0].page, GroupLabel(gs[0].ranges));
      assert all[1..] == GroupOutlines(gs[1..]) && same[1..] == GroupOutlines(hs[1..]);
      GroupsInjective(gs[1..], hs[1..]);
      assert gs == [gs[0]] + gs[1..] && hs == [hs[0]] + hs[1..];
    }
  }

  lemma {:induction false} ItemsInjective(items: seq<Item>, others: seq<Item>)
    requires FineItems(items) && FineItems(others) && ItemOutlines(items) == ItemOutlines(others)
    ensures items == others
    decreases items
  {
    hide NameLabel;
    if items != [] {
      var all, same := ItemOutlines(items), ItemOutlines(others);
      assert all[0] == OutlineOf(items[0].page, NameLabel(items[0].name)) &&
             same[0] == OutlineOf(others[0].page, NameLabel(others[0].name));
      NameTagInjective(items[0].name, others[0].name, items[0].page.info, others[0].page.info);
      PageInjective(items[0].page, others[0].page, NameLabel(items[0].name));
      assert all[1..] == ItemOutlines(items[1..]) && same[1..] == ItemOutlines(others[1..]);
      ItemsInjective(items[1..], others[1..]);
      assert items == [items[0]] + items[1..] && others == [others[0]] + others[1..];
    }
  }

  // ------------------------------------------------------------------ the text determines the page

  lemma {:induction false} SolidConcat(a: seq<Outline>, b: seq<Outline>)
    requires SolidAll(a) && SolidAll(b)
    ensures SolidAll(a + b)
    decreases a
  {
    if a == [] {
      assert a + b == b;
    } else {
      assert (a + b)[0] == a[0] && (a + b)[1..] == a[1..] + b;
      SolidConcat(a[1..], b);
    }
  }

  lemma {:induction false} PageSolid(p: Page)
    requires Fine(p)
    ensures SolidAll(GroupOutlines(p.groups) + ItemOutlines(p.named))
    decreases p
  {
    GroupsSolid(p.groups);
    ItemsSolid(p.named);
    SolidConcat(GroupOutlines(p.groups), ItemOutlines(p.named));
  }

  lemma {:induction false} GroupsSolid(gs: seq<Group>)
    requires FineGroups(gs)
    ensures SolidAll(GroupOutlines(gs))
    decreases gs
  {
    hide GroupLabel, Solid;
    if gs != [] {
      PageSolid(gs[0].page);
      GroupsSolid(gs[1..]);
      RangesSome(gs[0].ranges);
      GroupTagSolid(gs[0].ranges, gs[0].page.info);
      var os := GroupOutlines(gs);
      assert os[0] == OutlineOf(gs[0].page, GroupLabel(gs[0].ranges)) && os[1..] == GroupOutlines(gs[1..]);
    }
  }

  lemma GroupTagSolid(rs: seq<Range>, info: string)
    requires rs != [] && Solid(info)
    ensures Solid(GroupLabel(rs) + info)
  {
    hide RangesText, Expand, Decimal;
    RangesChars(rs);
    assert GroupLabel(rs) == "(" + RangesText(rs) + "): " + Count(rs);
    assert '\n' !in Count(rs);
  }

  lemma {:induction false} ItemsSolid(items: seq<Item>)
    requires FineItems(items)
    ensures SolidAll(ItemOutlines(items))
    decreases items
  {
    if items != [] {
      PageSolid(items[0].page);
      ItemsSolid(items[1..]);
      var os := ItemOutlines(items);
      assert os[0] == OutlineOf(items[0].page, NameLabel(items[0].name)) && os[1..] == ItemOutlines(items[1..]);
      assert os[0].text[0] == '(';
    }
  }

  lemma OneRendered(o: Outline)
    ensures RenderAll([o], 0) == Render(o, 0)
  {
    assert RenderAll([o][1..], 0) == [];
  }

  lemma SolidOne(o: Outline)
    requires Solid(o.text) && SolidAll(o.subs)
    ensures SolidAll([o])
  {
    assert [o][1..] == [];
  }

  /** Equal lines come from equal pages. */
  lemma LinesInjective(p: Page, q: Page)
    requires Fine(p) && Fine(q) && Lines(p, "", 0) == Lines(q, "", 0)
    ensures p == q
  {
    hide Lines, RenderAll, Render, SolidAll, GroupOutlines, ItemOutlines;
    var o, u := OutlineOf(p, ""), OutlineOf(q, "");
    LinesRendered(p, "", 0);
    LinesRendered(q, "", 0);
    PageSolid(p);
    PageSolid(q);
    assert "" + p.info == p.info && "" + q.info == q.info;
    SolidOne(o);
    SolidOne(u);
    OneRendered(o);
    OneRendered(u);
    assert RenderAll([o], 0) + [] == RenderAll([u], 0) + [];
    RenderInjective([o], [u], 0, [], []);
    assert [o][0] == [u][0];
    PageInjective(p, q, "");
  }

  lemma {:induction false} RenderFree(os: seq<Outline>, k: nat)
    requires SolidAll(os)
    ensures Free(RenderAll(os, k), '\n')
    decreases os
  {
    if os != [] {
      RenderFree(os[0].subs, k + 1);
      RenderFree(os[1..], k);
      OneFree(os[0], k);
    }
  }

  lemma OneFree(o: Outline, k: nat)
    requires Solid(o.text) && Free(RenderAll(o.subs, k + 1), '\n')
    ensures Free(Render(o, k), '\n')
  {
    hide RenderAll;
    assert '\n' !in Blank(k);
    assert '\n' !in Blank(k) + o.text && '\n' !in Blank(k) + o.text + "(" && '\n' !in Blank(k) + ")";
  }

  function PageText(p: Page): string { Join(Lines(p, "", 0), '\n') }

  /** The printed text determines the page. */
  lemma PageTextInjective(p: Page, q: Page)
    requires Fine(p) && Fine(q) && PageText(p) == PageText(q)
    ensures p == q
  {
    hide Lines, Join, Fine;
    PageLinesFree(p);
    PageLinesFree(q);
    JoinInjective(Lines(p, "", 0), Lines(q, "", 0), '\n');
    LinesInjective(p, q);
  }

  lemma PageLinesFree(p: Page)
    requires Fine(p)
    ensures Free(Lines(p, "", 0), '\n')
  {
    hide Lines, RenderAll, Render, SolidAll, GroupOutlines, ItemOutlines;
    LinesRendered(p, "", 0);
    PageSolid(p);
    assert "" + p.info == p.info;
    SolidOne(OutlineOf(p, ""));
    OneRendered(OutlineOf(p, ""));
    RenderFree([OutlineOf(p, "")], 0);
  }

  // ------------------------------------------------------------------ from a tree to its page

  function FirstOf(g: seq<Layer>): int { if g == [] then 0 else g[0].index }

  ghost predicate Ascending(gs: seq<seq<Layer>>) {
    forall i, j :: 0 <= i < j < |gs| ==> FirstOf(gs[i]) <= FirstOf(gs[j])
  }

  function PlaceGroup(gs: seq<seq<Layer>>, g: seq<Layer>): (r: seq<seq<Layer>>)
    ensures multiset(r) == multiset(gs) + multiset{g}
    decreases |gs|
  {
    if gs == [] then [g]
    else
      var n := |gs| - 1;
      assert gs == gs[..n] + [gs[n]];
      if FirstOf(gs[n]) <= FirstOf(g) then gs + [g] else PlaceGroup(gs[..n], g) + [gs[n]]
  }

  /** The groups sorted by their first index, ties in order of appearance. */
  function SortGroups(gs: seq<seq<Layer>>): (r: seq<seq<Layer>>)
    ensures multiset(r) == multiset(gs)
  {
    if gs == [] then []
    else
      var n := |gs| - 1;
      assert gs == gs[..n] + [gs[n]];
      PlaceGroup(SortGroups(gs[..n]), gs[n])
  }

  lemma {:induction false} PlaceAscending(gs: seq<seq<Layer>>, g: seq<Layer>)
    requires Ascending(gs)
    ensures Ascending(PlaceGroup(gs, g))
    decreases |gs|
  {
    hide FirstOf;
    if gs != [] {
      var n, r := |gs| - 1, PlaceGroup(gs, g);
      if FirstOf(gs[n]) > FirstOf(g) {
        var init: seq<seq<Layer>> := PlaceGroup(gs[..n], g);
        PlaceAscending(gs[..n], g);
        forall i | 0 <= i < |init| ensures FirstOf(init[i]) <= FirstOf(gs[n]) {
          assert init[i] in multiset(init);
          assert init[i] in gs[..n] || init[i] == g;
        }
        forall i, j | 0 <= i < j < |r| ensures FirstOf(r[i]) <= FirstOf(r[j]) {
          assert r[i] == init[i] && (j < |init| ==> r[j] == init[j]);
        }
      }
    }
  }

  lemma {:induction false} GroupsAscend(gs: seq<seq<Layer>>)
    ensures Ascending(SortGroups(gs))
  {
    if gs != [] {
      GroupsAscend(gs[..|gs| - 1]);
      PlaceAscending(SortGroups(gs[..|gs| - 1]), gs[|gs| - 1]);
    }
  }

  ghost predicate ChildTree(t: Tree, u: Tree) { exists i :: 0 <= i < |t.children| && t.children[i].tree == u }

  lemma ChildSmaller(t: Tree, u: Tree)
    requires ChildTree(t, u)
    ensures u < t
  {
    var i :| 0 <= i < |t.children| && t.children[i].tree == u;
    assert t.children[i] < t;
  }

  /** A group whose first member is one of the module's children. */
  ghost predicate Roots(t: Tree, g: seq<Layer>) { g != [] && ChildTree(t, g[0].tree) }

  ghost predicate Rooted(t: Tree, gs: seq<seq<Layer>>) { forall g :: g in gs ==> Roots(t, g) }

  lemma RootedTail(t: Tree, gs: seq<seq<Layer>>)
    requires Rooted(t, gs) && gs != []
    ensures gs[0] != [] && ChildTree(t, gs[0][0].tree) && gs[0][0].tree < t && Rooted(t, gs[1..])
  {
    assert gs[0] in gs && Roots(t, gs[0]);
    ChildSmaller(t, gs[0][0].tree);
  }

  /** The groups of a module's numbered children in the order they are printed. */
  function PrintedGroups(t: Tree, num: string -> Option<int>): (r: seq<seq<Layer>>)
    ensures Rooted(t, r)
  {
    var gs := SortGroups(Dictionary(Numbered(t.children, num)));
    GroupsInside(t, num, gs);
    gs
  }

  lemma GroupsInside(t: Tree, num: string -> Option<int>, gs: seq<seq<Layer>>)
    requires multiset(gs) == multiset(Dictionary(Numbered(t.children, num)))
    ensures Rooted(t, gs)
  {
    hide Signature;
    var ls := Numbered(t.children, num);
    var d := Dictionary(ls);
    forall g | g in gs ensures Roots(t, g) {
      assert g in multiset(gs);
      var k :| 0 <= k < |d| && d[k] == g;
      GroupNotEmpty(ls, Signatures(ls)[k]);
      AlikeHas(ls, Signatures(ls)[k], g[0]);
      var i := NumberedFrom(t.children, num, g[0]);
    }
  }

  lemma {:induction false} GroupNotEmpty(ls: seq<Layer>, sig: string)
    requires sig in Signatures(ls)
    ensures Alike(ls, sig) != []
  {
    hide Signature;
    if sig in Signatures(ls[..|ls| - 1]) { GroupNotEmpty(ls[..|ls| - 1], sig); }
  }

  lemma {:induction false} NamedFrom(cs: seq<Child>, num: string -> Option<int>, c: Child) returns (i: nat)
    requires c in Named(cs, num)
    ensures i < |cs| && cs[i] == c && num(c.name).None?
  {
    var last := |cs| - 1;
    if c in Named(cs[..last], num) { i := NamedFrom(cs[..last], num, c); } else { i := last; }
  }

  lemma NamedInside(t: Tree, num: string -> Option<int>)
    ensures forall c :: c in Named(t.children, num) ==> ChildTree(t, c.tree)
  {
    forall c | c in Named(t.children, num) ensures ChildTree(t, c.tree) {
      var i := NamedFrom(t.children, num, c);
    }
  }

  /** The page of a module: one representative per group, then the named children. */
  function Collapse(t: Tree, num: string -> Option<int>): Page
    decreases t, 1
  {
    NamedInside(t, num);
    Page(t.info, CollapseGroups(t, PrintedGroups(t, num), num), CollapseNamed(t, Named(t.children, num), num))
  }

  function CollapseGroups(t: Tree, gs: seq<seq<Layer>>, num: string -> Option<int>): (r: seq<Group>)
    requires Rooted(t, gs)
    ensures |r| == |gs|
    decreases t, 0, |gs|
  {
    if gs == [] then []
    else
      RootedTail(t, gs);
      [Group(RangesOf(Sort(IndicesOf(gs[0]))), Collapse(gs[0][0].tree, num))] + CollapseGroups(t, gs[1..], num)
  }

  function CollapseNamed(t: Tree, cs: seq<Child>, num: string -> Option<int>): (r: seq<Item>)
    requires forall c :: c in cs ==> ChildTree(t, c.tree)
    ensures |r| == |cs|
    decreases t, 0, |cs|
  {
    if cs == [] then []
    else
      assert cs[0] in cs;
      ChildSmaller(t, cs[0].tree);
      [Item(cs[0].name, Collapse(cs[0].tree, num))] + CollapseNamed(t, cs[1..], num)
  }

  /** The whole printed text of a model. */
  function ModelPrinted(t: Tree, num: string -> Option<int>): string { PageText(Collapse(t, num)) }

  // ------------------------------------------------------------------ the text determines the tree

  /** Every info is one line that starts with no blank, and no name can be taken for a group's label. */
  ghost predicate Proper(t: Tree, num: string -> Option<int>)
    decreases t
  {
    && Solid(t.info)
    && forall i :: 0 <= i < |t.children| ==>
         Proper(t.children[i].tree, num) && (num(t.children[i].name).None? ==> NameOk(t.children[i].name))
  }

  /** Children as a list module numbers them: by increasing index, each named by its index, before any named ones. */
  function Rebuilt(ls: seq<Layer>, named: seq<Child>): seq<Child> {
    seq(|ls|, i requires 0 <= i < |ls| => Child(IntText(ls[i].index), ls[i].tree)) + named
  }

  ghost predicate Increasing(ls: seq<Layer>) { forall i, j :: 0 <= i < j < |ls| ==> ls[i].index < ls[j].index }

  ghost predicate Tidy(t: Tree, num: string -> Option<int>)
    decreases t
  {
    && Increasing(Numbered(t.children, num)) && t.children == Rebuilt(Numbered(t.children, num), Named(t.children, num))
    && forall i :: 0 <= i < |t.children| ==> Tidy(t.children[i].tree, num)
  }

  /** What a whole tree must meet to be read back from its text. */
  ghost predicate Readable(t: Tree, num: string -> Option<int>) { Clean(t) && Proper(t, num) && Tidy(t, num) }

  lemma ReadableChild(t: Tree, u: Tree, num: string -> Option<int>)
    requires Readable(t, num) && ChildTree(t, u)
    ensures Readable(u, num)
  {
    var i :| 0 <= i < |t.children| && t.children[i].tree == u;
    CleanAt(t.children, i);
  }

  lemma {:induction false} AlikeIncreasing(ls: seq<Layer>, sig: string)
    requires Increasing(ls)
    ensures Increasing(Alike(ls, sig))
  {
    hide Signature;
    if ls != [] {
      var n := |ls| - 1;
      IncreasingInit(ls);
      AlikeIncreasing(ls[..n], sig);
      forall l | l in Alike(ls[..n], sig) ensures l.index < ls[n].index {
        AlikeHas(ls[..n], sig, l);
        var m :| 0 <= m < n && ls[m] == l;
      }
    }
  }

  lemma {:induction false} SortedSame(a: seq<int>, b: seq<int>)
    requires Sorted(a) && Sorted(b) && multiset(a) == multiset(b)
    ensures a == b
    decreases |a|
  {
    hide Sorted;
    SameSize(a, b);
    if a != [] {
      var n := |a| - 1;
      LargestSame(a, b);
      DropLast(a, b);
      SortedInit(a);
      SortedInit(b);
      SortedSame(a[..n], b[..n]);
      assert a == a[..n] + [a[n]] && b == b[..n] + [b[n]];
    }
  }

  lemma SortedInit(a: seq<int>)
    requires Sorted(a) && a != []
    ensures Sorted(a[..|a| - 1])
  {
  }

  lemma LargestSame(a: seq<int>, b: seq<int>)
    requires Sorted(a) && Sorted(b) && multiset(a) == multiset(b) && a != [] && b != []
    ensures a[|a| - 1] == b[|b| - 1]
  {
    assert a[|a| - 1] in multiset(b) && b[|b| - 1] in multiset(a);
  }

  /** A group of increasing layers is printed by its own indices. */
  lemma GroupRanges(g: seq<Layer>)
    requires g != [] && Increasing(g)
    ensures Steps(IndicesOf(g)) && Sort(IndicesOf(g)) == IndicesOf(g) && IsRanges(RangesOf(IndicesOf(g)))
    ensures RangesOf(IndicesOf(g)) != [] && Expand(RangesOf(IndicesOf(g))) == IndicesOf(g)
  {
    hide Sort, RangesOf, Expand;
    SortedSame(Sort(IndicesOf(g)), IndicesOf(g));
    RangesExpand(IndicesOf(g));
  }

  ghost predicate AllIncreasing(gs: seq<seq<Layer>>) { forall g :: g in gs ==> Increasing(g) }

  lemma GroupsIncrease(t: Tree, num: string -> Option<int>)
    requires Increasing(Numbered(t.children, num))
    ensures AllIncreasing(PrintedGroups(t, num))
  {
    hide Increasing, Numbered, Alike, Signatures;
    var ls := Numbered(t.children, num);
    var d, gs := Dictionary(ls), PrintedGroups(t, num);
    forall g | g in gs ensures Increasing(g) {
      assert g in multiset(gs);
      var k :| 0 <= k < |d| && d[k] == g;
      AlikeIncreasing(ls, Signatures(ls)[k]);
    }
  }

  lemma {:induction false} CollapseFine(t: Tree, num: string -> Option<int>)
    requires Readable(t, num)
    ensures Fine(Collapse(t, num))
    decreases t, 1
  {
    hide PrintedGroups, Clean, CollapseGroups, CollapseNamed, NameOk;
    NamedInside(t, num);
    GroupsIncrease(t, num);
    GroupsFine(t, PrintedGroups(t, num), num);
    forall c | c in Named(t.children, num) ensures NameOk(c.name) { var i := NamedFrom(t.children, num, c); }
    NamedFine(t, Named(t.children, num), num);
  }

  lemma {:induction false} GroupsFine(t: Tree, gs: seq<seq<Layer>>, num: string -> Option<int>)
    requires Readable(t, num) && Rooted(t, gs) && AllIncreasing(gs)
    ensures FineGroups(CollapseGroups(t, gs, num))
    decreases t, 0, |gs|
  {
    hide Readable, RangesOf, Sort, Rooted, ChildTree, Increasing, IsRanges, Collapse;
    if gs != [] {
      RootedTail(t, gs);
      assert gs[0] in gs;
      ReadableChild(t, gs[0][0].tree, num);
      CollapseFine(gs[0][0].tree, num);
      GroupRanges(gs[0]);
      GroupsFine(t, gs[1..], num);
    }
  }

  lemma {:induction false} NamedFine(t: Tree, cs: seq<Child>, num: string -> Option<int>)
    requires Readable(t, num) && forall c :: c in cs ==> ChildTree(t, c.tree) && NameOk(c.name)
    ensures FineItems(CollapseNamed(t, cs, num))
    decreases t, 0, |cs|
  {
    hide Readable, NameOk, Collapse;
    if cs != [] {
      assert cs[0] in cs;
      ChildSmaller(t, cs[0].tree);
      ReadableChild(t, cs[0].tree, num);
      CollapseFine(cs[0].tree, num);
      NamedFine(t, cs[1..], num);
    }
  }

  lemma {:induction false} IncreasingSame(a: seq<Layer>, b: seq<Layer>)
    requires Increasing(a) && Increasing(b) && multiset(a) == multiset(b)
    ensures a == b
    decreases |a|
  {
    hide Increasing;
    SameSize(a, b);
    if a != [] {
      LastSame(a, b);
      DropLast(a, b);
      IncreasingInit(a);
      IncreasingInit(b);
      IncreasingSame(a[..|a| - 1], b[..|b| - 1]);
      assert a == a[..|a| - 1] + [a[|a| - 1]] && b == b[..|b| - 1] + [b[|b| - 1]];
    }
  }

  lemma IncreasingInit(a: seq<Layer>)
    requires Increasing(a) && a != []
    ensures Increasing(a[..|a| - 1])
  {
  }

  lemma LastSame(a: seq<Layer>, b: seq<Layer>)
    requires a != [] && b != [] && Increasing(a) && Increasing(b) && multiset(a) == multiset(b)
    ensures a[|a| - 1] == b[|b| - 1]
  {
    hide Increasing;
    assert a[|a| - 1] in multiset(b) && b[|b| - 1] in multiset(a);
    LargestLast(a, b[|b| - 1]);
    LargestLast(b, a[|a| - 1]);
  }

  lemma LastApart<T>(init: seq<T>, a: seq<T>, x: T)
    requires a != [] && init == a[..|a| - 1] && x == a[|a| - 1]
    ensures multiset(init) == multiset(a) - multiset{x}
  {
    assert a == init + [x];
  }

  lemma DropLast<T>(a: seq<T>, b: seq<T>)
    requires a != [] && b != [] && a[|a| - 1] == b[|b| - 1] && multiset(a) == multiset(b)
    ensures multiset(a[..|a| - 1]) == multiset(b[..|b| - 1])
  {
    var x := a[|a| - 1];
    LastApart(a[..|a| - 1], a, x);
    LastApart(b[..|b| - 1], b, x);
  }

  lemma LargestLast(a: seq<Layer>, x: Layer)
    requires Increasing(a) && x in a
    ensures x == a[|a| - 1] || x.index < a[|a| - 1].index
  {
  }

  lemma {:induction false} GroupPageAt(t: Tree, gs: seq<seq<Layer>>, num: string -> Option<int>, i: nat)
    requires i < |gs| && Rooted(t, gs)
    ensures Roots(t, gs[i]) && CollapseGroups(t, gs, num)[i] ==
            Group(RangesOf(Sort(IndicesOf(gs[i]))), Collapse(gs[i][0].tree, num))
    decreases |gs|
  {
    hide Collapse, Sort, RangesOf, Rooted, ChildTree;
    RootedTail(t, gs);
    if i > 0 { GroupPageAt(t, gs[1..], num, i - 1); }
  }

  lemma {:induction false} NamedPageAt(t: Tree, cs: seq<Child>, num: string -> Option<int>, i: nat)
    requires i < |cs| && forall c :: c in cs ==> ChildTree(t, c.tree)
    ensures cs[i] in cs && CollapseNamed(t, cs, num)[i] == Item(cs[i].name, Collapse(cs[i].tree, num))
    decreases |cs|
  {
    hide Collapse;
    if i > 0 { NamedPageAt(t, cs[1..], num, i - 1); }
  }

  /** Headings over the printed groups. */
  function HeadingsOf(gs: seq<seq<Layer>>): seq<Heading>
    requires forall g :: g in gs ==> g != []
  {
    seq(|gs|, i requires 0 <= i < |gs| => assert gs[i] in gs; Heading(RangesOf(Sort(IndicesOf(gs[i]))), gs[i][0].tree))
  }

  lemma GroupsHeaded(t: Tree, num: string -> Option<int>)
    requires Increasing(Numbered(t.children, num))
    ensures Printed(PrintedGroups(t, num), HeadingsOf(PrintedGroups(t, num)), Numbered(t.children, num))
  {
    hide Sort, RangesOf, Expand, Increasing;
    var gs := PrintedGroups(t, num);
    GroupsIncrease(t, num);
    forall i | 0 <= i < |gs| ensures Heads(HeadingsOf(gs)[i], gs[i]) {
      assert gs[i] in gs;
      GroupRanges(gs[i]);
    }
  }

  /** Equal pages come from equal trees. */
  lemma {:induction false} CollapseInjective(t: Tree, u: Tree, num: string -> Option<int>)
    requires Readable(t, num) && Readable(u, num) && Collapse(t, num) == Collapse(u, num)
    ensures t == u
    decreases t
  {
    hide Collapse, Proper, PrintedGroups, Numbered, Named, Clean, CollapseGroups, CollapseNamed, RangesOf, Sort;
    NamedInside(t, num);
    NamedInside(u, num);
    PageParts(t, num);
    PageParts(u, num);
    var gs, hs := PrintedGroups(t, num), PrintedGroups(u, num);
    var cs, ds := Named(t.children, num), Named(u.children, num);
    forall i | 0 <= i < |gs| ensures HeadingsOf(gs)[i] == HeadingsOf(hs)[i] {
      GroupPageAt(t, gs, num, i);
      GroupPageAt(u, hs, num, i);
      ChildSmaller(t, gs[i][0].tree);
      ReadableChild(t, gs[i][0].tree, num);
      ReadableChild(u, hs[i][0].tree, num);
      CollapseInjective(gs[i][0].tree, hs[i][0].tree, num);
    }
    forall i | 0 <= i < |cs| ensures cs[i] == ds[i] {
      NamedPageAt(t, cs, num, i);
      NamedPageAt(u, ds, num, i);
      ChildSmaller(t, cs[i].tree);
      ReadableChild(t, cs[i].tree, num);
      ReadableChild(u, ds[i].tree, num);
      CollapseInjective(cs[i].tree, ds[i].tree, num);
    }
    assert cs == ds;
    NumberedSame(t, u, num);
  }

  lemma PageParts(t: Tree, num: string -> Option<int>)
    requires forall c :: c in Named(t.children, num) ==> ChildTree(t, c.tree)
    ensures Collapse(t, num) ==
            Page(t.info, CollapseGroups(t, PrintedGroups(t, num), num), CollapseNamed(t, Named(t.children, num), num))
  {
    hide PrintedGroups, CollapseGroups, CollapseNamed;
  }

  lemma NumberedSame(t: Tree, u: Tree, num: string -> Option<int>)
    requires Readable(t, num) && Readable(u, num)
    requires |PrintedGroups(t, num)| == |PrintedGroups(u, num)|
    requires HeadingsOf(PrintedGroups(t, num)) == HeadingsOf(PrintedGroups(u, num))
    ensures Numbered(t.children, num) == Numbered(u.children, num)
  {
    hide Proper, PrintedGroups, Numbered, RangesText, HeadingsOf, Printed;
    GroupsHeaded(t, num);
    GroupsHeaded(u, num);
    NumberedClean(t.children, num);
    NumberedClean(u.children, num);
    var hs := HeadingsOf(PrintedGroups(t, num));
    HeadingsDetermine(PrintedGroups(t, num), hs, Numbered(t.children, num), PrintedGroups(u, num), hs,
        Numbered(u.children, num));
    IncreasingSame(Numbered(t.children, num), Numbered(u.children, num));
  }

  /** Two models that print the same text are the same tree. */
  lemma PrintedTextDetermines(t: Tree, u: Tree, num: string -> Option<int>)
    requires Readable(t, num) && Readable(u, num) && ModelPrinted(t, num) == ModelPrinted(u, num)
    ensures t == u
  {
    hide PageText, Collapse, Clean, Tidy;
    CollapseFine(t, num);
    CollapseFine(u, num);
    PageTextInjective(Collapse(t, num), Collapse(u, num));
    CollapseInjective(t, u, num);
  }

  // ------------------------------------------------------------------ what the conditions are for

  lemma {:induction false} GroupsElsewhere(t: Tree, u: Tree, gs: seq<seq<Layer>>, num: string -> Option<int>)
    requires Rooted(t, gs) && Rooted(u, gs)
    ensures CollapseGroups(t, gs, num) == CollapseGroups(u, gs, num)
    decreases |gs|
  {
    hide Collapse, Sort, RangesOf, Rooted, ChildTree;
    if gs != [] {
      RootedTail(t, gs);
      RootedTail(u, gs);
      GroupsElsewhere(t, u, gs[1..], num);
    }
  }

  lemma {:induction false} NamedElsewhere(t: Tree, u: Tree, cs: seq<Child>, num: string -> Option<int>)
    requires forall c :: c in cs ==> ChildTree(t, c.tree) && ChildTree(u, c.tree)
    ensures CollapseNamed(t, cs, num) == CollapseNamed(u, cs, num)
    decreases |cs|
  {
    hide Collapse, ChildTree;
    if cs != [] {
      assert cs[0] in cs;
      NamedElsewhere(t, u, cs[1..], num);
    }
  }

  /**
   How numbered and named children are interleaved is not printed, and neither is how an index is spelled: modules with
   the same numbered children and the same named ones, each in the same order, print the same text.
   */
  lemma InterleavingNotPrinted(t: Tree, u: Tree, num: string -> Option<int>)
    requires t.info == u.info && Numbered(t.children, num) == Numbered(u.children, num)
    requires Named(t.children, num) == Named(u.children, num)
    ensures ModelPrinted(t, num) == ModelPrinted(u, num)
  {
    hide CollapseGroups, CollapseNamed, PageText, Numbered, Named, Dictionary;
    NamedInside(t, num);
    NamedInside(u, num);
    assert PrintedGroups(t, num) == PrintedGroups(u, num);
    GroupsElsewhere(t, u, PrintedGroups(t, num), num);
    NamedElsewhere(t, u, Named(t.children, num), num);
  }

  function Leaf(info: string): Page { Page(info, [], []) }

  lemma OneItem(root: string, item: Item)
    requires item.page == Leaf(item.page.info)
    ensures Lines(Page(root, [], [item]), "", 0) ==
            ["" + root + "("] + ["  " + NameLabel(item.name) + item.page.info] + [")"]
  {
    var head := Blank(1) + NameLabel(item.name) + item.page.info;
    assert Blank(0) == "" && Blank(1) == "  ";
    assert ItemLines([item], 1) == [head] by { assert [item][1..] == []; }
    assert GroupLines([], 1) + [head] == [head];
    assert "" + NameLabel("") + root == "" + root && Blank(0) + ")" == ")";
  }

  /** A closing parenthesis, colon and blank in a name: the rest of the name could be the start of the info. */
  lemma ClosingInName(p: string, q: string, root: string, info: string)
    requires p != []
    ensures var a, b := Page(root, [], [Item(p + "): " + q, Leaf(info))]),
            Page(root, [], [Item(p, Leaf(q + "): " + info))]);
            a != b && PageText(a) == PageText(b)
  {
    var x, y := Item(p + "): " + q, Leaf(info)), Item(p, Leaf(q + "): " + info));
    OneItem(root, x);
    OneItem(root, y);
    assert |x.name| > |y.name|;
    assert "  " + NameLabel(x.name) + info == "  " + NameLabel(p) + (q + "): " + info);
  }

  /** A name that is the text of a group's indices: one child of that name can print like the group. */
  lemma NameLikeLabel(root: string, s: seq<int>, info: string)
    requires |s| > 1 && Solid(info)
    ensures var name, rs := RangesText(RangesOf(s)), RangesOf(s);
            var a, b := Page(root, [], [Item(name, Leaf(Count(rs) + info))]), Page(root, [Group(rs, Leaf(info))], []);
            a != b && PageText(a) == PageText(b)
  {
    hide RangesText, RangesOf, Count, Lines, GroupLabel, NameLabel, Join;
    RangesExpand(s);
    OneItem(root, Item(RangesText(RangesOf(s)), Leaf(Count(RangesOf(s)) + info)));
    OneGroup(root, Group(RangesOf(s), Leaf(info)));
    SameLine(RangesOf(s), info);
  }

  lemma SameLine(rs: seq<Range>, info: string)
    requires rs != []
    ensures "  " + NameLabel(RangesText(rs)) + (Count(rs) + info) == "  " + GroupLabel(rs) + info
  {
    hide RangesText, Count;
    RangesChars(rs);
    var tag, count := "  " + ("(" + RangesText(rs) + "): "), Count(rs);
    assert tag + (count + info) == tag + count + info;
    assert "  " + ("(" + RangesText(rs) + "): " + count) == tag + count;
  }

  lemma OneGroup(root: string, g: Group)
    requires g.page == Leaf(g.page.info) && Solid(g.page.info)
    ensures Lines(Page(root, [g], []), "", 0) ==
            ["" + root + "("] + ["  " + GroupLabel(g.ranges) + g.page.info] + [")"]
  {
    hide GroupLabel, Lstrip;
    var info := g.page.info;
    var line := "  " + GroupLabel(g.ranges) + info;
    assert Blank(0) == "" && Blank(1) == "  ";
    StripBlanks(2, info);
    assert seq(2, _ => ' ') == "  ";
    assert GroupLines([g], 1) == [line] by {
      assert Lines(g.page, "", 1) == ["  " + info] by { assert "  " + NameLabel("") + info == "  " + info; }
      assert [g][1..] == [];
    }
    assert [line] + ItemLines([], 1) == [line];
    assert "" + NameLabel("") + root == "" + root && Blank(0) + ")" == ")";
  }

  // ------------------------------------------------------------------ exactly which names are safe

  /** Everything but the names is in order: single-line infos, clean names for the signatures, children in order. */
  ghost predicate Ordinary(t: Tree, num: string -> Option<int>) { Clean(t) && SolidInfos(t) && Tidy(t, num) }

  ghost predicate SolidInfos(t: Tree)
    decreases t
  {
    Solid(t.info) && forall i :: 0 <= i < |t.children| ==> SolidInfos(t.children[i].tree)
  }

  ghost predicate NamesFrom(t: Tree, names: set<string>, num: string -> Option<int>)
    decreases t
  {
    forall i :: 0 <= i < |t.children| ==>
      NamesFrom(t.children[i].tree, names, num) && (num(t.children[i].name).None? ==> t.children[i].name in names)
  }

  lemma {:induction false} SafeNamesProper(t: Tree, names: set<string>, num: string -> Option<int>)
    requires SolidInfos(t) && NamesFrom(t, names, num) && forall n :: n in names ==> NameOk(n)
    ensures Proper(t, num)
    decreases t
  {
    hide NameOk;
    forall i | 0 <= i < |t.children| ensures Proper(t.children[i].tree, num) {
      SafeNamesProper(t.children[i].tree, names, num);
    }
  }

  /** The conversion reads every integer as Python writes it. */
  ghost predicate ReadsIntegers(num: string -> Option<int>) { forall i: int :: num(IntText(i)) == Some(i) }

  /** A leaf with an info, and one numbered leaf for each index. */
  function Bare(info: string): Tree { Node(info, []) }

  function LayersOf(s: seq<int>, t: Tree): seq<Layer> { seq(|s|, i requires 0 <= i < |s| => Layer(s[i], t)) }

  function NumberedTree(s: seq<int>): Tree { Node("A", Rebuilt(LayersOf(s, Bare("A")), [])) }

  function NamedTree(name: string, info: string): Tree { Node("A", [Child(name, Bare(info))]) }

  lemma {:induction false} RebuiltParts(s: seq<int>, t: Tree, num: string -> Option<int>)
    requires ReadsIntegers(num)
    ensures Numbered(Rebuilt(LayersOf(s, t), []), num) == LayersOf(s, t) &&
            Named(Rebuilt(LayersOf(s, t), []), num) == []
  {
    hide IntText;
    var cs := Rebuilt(LayersOf(s, t), []);
    if s != [] {
      var n := |s| - 1;
      RebuiltParts(s[..n], t, num);
      assert cs[..n] == Rebuilt(LayersOf(s[..n], t), []) && cs[n] == Child(IntText(s[n]), t);
      assert LayersOf(s, t) == LayersOf(s[..n], t) + [Layer(s[n], t)];
      assert num(IntText(s[n])) == Some(s[n]);
    }
  }

  lemma {:induction false} OneSignature(s: seq<int>, t: Tree)
    ensures s != [] ==> Signatures(LayersOf(s, t)) == [Signature(t)]
    ensures Alike(LayersOf(s, t), Signature(t)) == LayersOf(s, t)
  {
    hide Signature;
    if s != [] {
      var n := |s| - 1;
      var ls := LayersOf(s, t);
      OneSignature(s[..n], t);
      assert ls[..n] == LayersOf(s[..n], t) && ls == ls[..n] + [Layer(s[n], t)];
    }
  }

  lemma BareLeaf(info: string, num: string -> Option<int>)
    ensures Collapse(Bare(info), num) == Leaf(info)
  {
    var t := Bare(info);
    assert Numbered(t.children, num) == [] && Named(t.children, num) == [];
    assert Dictionary([]) == [] by { NoLayers(); }
  }

  lemma NumberedPage(s: seq<int>, num: string -> Option<int>)
    requires ReadsIntegers(num) && Steps(s) && s != []
    ensures Collapse(NumberedTree(s), num) == Page("A", [Group(RangesOf(s), Leaf("A"))], [])
  {
    hide Signature, RangesOf, Sort, Collapse, CollapseNamed;
    var u, ls := NumberedTree(s), LayersOf(s, Bare("A"));
    RebuiltParts(s, Bare("A"), num);
    OneSignature(s, Bare("A"));
    assert Dictionary(ls) == [ls];
    assert PrintedGroups(u, num) == [ls] by { assert [ls][..0] == []; assert SortGroups([]) == []; }
    assert IndicesOf(ls) == s;
    GroupRanges(ls);
    NamedInside(u, num);
    PageParts(u, num);
    BareLeaf("A", num);
    OneGroupPage(u, ls, num);
    assert CollapseNamed(u, [], num) == [];
  }

  lemma OneGroupPage(u: Tree, g: seq<Layer>, num: string -> Option<int>)
    requires Rooted(u, [g])
    ensures g != [] && CollapseGroups(u, [g], num) == [Group(RangesOf(Sort(IndicesOf(g))), Collapse(g[0].tree, num))]
  {
    hide Collapse, RangesOf, Sort, IndicesOf;
    RootedTail(u, [g]);
    assert [g][1..] == [];
  }

  lemma NamedPage(name: string, info: string, num: string -> Option<int>)
    requires num(name).None?
    ensures Collapse(NamedTree(name, info), num) == Page("A", [], [Item(name, Leaf(info))])
  {
    hide Collapse, CollapseGroups;
    var t, c := NamedTree(name, info), Child(name, Bare(info));
    assert t.children == [c] && [c][..0] == [] && Numbered([], num) == [] && Named([], num) == [];
    assert Numbered(t.children, num) == [] && Named(t.children, num) == [c];
    assert Dictionary([]) == [] by { NoLayers(); }
    assert PrintedGroups(t, num) == [];
    NamedInside(t, num);
    PageParts(t, num);
    BareLeaf(info, num);
    assert CollapseGroups(t, [], num) == [];
    assert [c][1..] == [];
  }

  lemma SingleLabel(s: seq<int>)
    requires |s| == 1
    ensures RangesText(RangesOf(s)) == IntText(s[0])
  {
    hide IntText;
    var i := s[0];
    assert s == [i] && [i][..0] == [] && RangesOf([]) == [];
    assert RangesOf([i]) == [Range(i, i)];
    assert IntText(i) + "" == IntText(i);
  }

  lemma {:induction false} CleanIntegers(s: seq<int>, t: Tree)
    requires Clean(t)
    ensures CleanForest(Rebuilt(LayersOf(s, t), []))
  {
    hide IntText, Clean, CleanName, Rebuilt;
    RebuiltHead(s, t);
    if s != [] {
      IntegerClean(s[0]);
      CleanIntegers(s[1..], t);
    }
  }

  lemma RebuiltHead(s: seq<int>, t: Tree)
    ensures var cs := Rebuilt(LayersOf(s, t), []);
            && |cs| == |s|
            && (s != [] ==> cs[0] == Child(IntText(s[0]), t) && cs[1..] == Rebuilt(LayersOf(s[1..], t), []))
  {
    hide IntText;
  }

  lemma IntegerClean(i: int)
    ensures CleanName(IntText(i))
  {
    hide IntText;
    IntegerChars(i);
  }

  lemma NumberedOrdinary(s: seq<int>, names: set<string>, num: string -> Option<int>)
    requires ReadsIntegers(num) && Steps(s)
    ensures Ordinary(NumberedTree(s), num) && NamesFrom(NumberedTree(s), names, num)
  {
    hide IntText, Clean, Tidy, SolidInfos, NamesFrom;
    var leaf := Bare("A");
    BareOrdinary(names, num);
    BareTidy("A", num);
    CleanIntegers(s, leaf);
    NumberedIsClean(s);
    NumberedTidy(s, num);
    NumberedNames(s, names, num);
  }

  lemma BareOrdinary(names: set<string>, num: string -> Option<int>)
    ensures Clean(Bare("A")) && SolidInfos(Bare("A")) && NamesFrom(Bare("A"), names, num)
  {
  }

  lemma NumberedAt(s: seq<int>, i: nat)
    requires i < |s|
    ensures |NumberedTree(s).children| == |s| && NumberedTree(s).children[i] == Child(IntText(s[i]), Bare("A"))
  {
  }

  lemma NumberedIsClean(s: seq<int>)
    requires CleanForest(Rebuilt(LayersOf(s, Bare("A")), []))
    ensures Clean(NumberedTree(s))
  {
  }

  lemma NumberedTidy(s: seq<int>, num: string -> Option<int>)
    requires ReadsIntegers(num) && Steps(s) && Tidy(Bare("A"), num)
    ensures Tidy(NumberedTree(s), num)
  {
    hide IntText, ReadsIntegers;
    var u := NumberedTree(s);
    RebuiltParts(s, Bare("A"), num);
    forall i | 0 <= i < |u.children| ensures Tidy(u.children[i].tree, num) { NumberedAt(s, i); }
  }

  lemma NumberedNames(s: seq<int>, names: set<string>, num: string -> Option<int>)
    requires ReadsIntegers(num) && SolidInfos(Bare("A")) && NamesFrom(Bare("A"), names, num)
    ensures SolidInfos(NumberedTree(s)) && NamesFrom(NumberedTree(s), names, num)
  {
    hide IntText;
    var u := NumberedTree(s);
    forall i | 0 <= i < |u.children| ensures u.children[i].tree == Bare("A") && num(u.children[i].name).Some? {
      NumberedAt(s, i);
    }
  }

  lemma BareTidy(info: string, num: string -> Option<int>)
    ensures Tidy(Bare(info), num)
  {
    assert Numbered([], num) == [] && Named([], num) == [] && Rebuilt([], []) == [];
  }

  lemma NamedOrdinary(name: string, info: string, names: set<string>, num: string -> Option<int>)
    requires num(name).None? && name in names && CleanName(name) && Solid(info)
    ensures Ordinary(NamedTree(name, info), num) && NamesFrom(NamedTree(name, info), names, num)
  {
    var t, c, leaf := NamedTree(name, info), Child(name, Bare(info)), Bare(info);
    BareTidy(info, num);
    assert t.children == [c] && [c][..0] == [] && [c][1..] == [] && Numbered([], num) == [] && Named([], num) == [];
    assert Numbered(t.children, num) == [] && Named(t.children, num) == [c];
    assert Rebuilt([], [c]) == [c];
    assert Clean(leaf) && CleanForest([]) && SolidInfos(leaf) && NamesFrom(leaf, names, num);
    assert CleanForest([c]);
  }

  /** Two ordinary trees with names from `names` that print the same text. */
  ghost predicate AlikeInPrint(t: Tree, u: Tree, names: set<string>, num: string -> Option<int>) {
    && Ordinary(t, num) && NamesFrom(t, names, num) && Ordinary(u, num) && NamesFrom(u, names, num)
    && ModelPrinted(t, num) == ModelPrinted(u, num)
  }

  /** A name that is a label gives two trees with one text. */
  lemma LabelClashes(name: string, s: seq<int>, names: set<string>, num: string -> Option<int>)
    requires ReadsIntegers(num) && num(name).None? && name in names && CleanName(name)
    requires s != [] && Steps(s) && name == RangesText(RangesOf(s))
    ensures exists t, u :: AlikeInPrint(t, u, names, num) && t != u
  {
    hide Ordinary, NamesFrom, Collapse, PageText, RangesText, RangesOf, Count, NumberedTree, NamedTree;
    if |s| == 1 { SingleLabel(s); }
    var info := Count(RangesOf(s)) + "A";
    CountSolid(RangesOf(s));
    NumberedOrdinary(s, names, num);
    NamedOrdinary(name, info, names, num);
    NumberedPage(s, num);
    NamedPage(name, info, num);
    NameLikeLabel("A", s, "A");
    var t, u := NamedTree(name, info), NumberedTree(s);
    assert AlikeInPrint(t, u, names, num) && t != u;
  }

  lemma CountSolid(rs: seq<Range>)
    ensures Solid(Count(rs) + "A")
  {
    hide Expand, Decimal;
    if |Expand(rs)| > 1 { assert Decimal(|Expand(rs)|)[0] in Decimal(|Expand(rs)|); }
  }

  /**
   Exactly which names are safe: the printed text tells every two ordinary trees with names from `names` apart if and
   only if none of the names is what is printed for the indices of a group.
   */
  lemma PrintedTextIff(names: set<string>, num: string -> Option<int>)
    requires ReadsIntegers(num)
    requires forall n :: n in names ==> n != [] && CleanName(n) && '\n' !in n && num(n).None?
    ensures (forall t, u :: AlikeInPrint(t, u, names, num) ==> t == u) <==> forall n :: n in names ==> !IsLabel(n)
  {
    hide ModelPrinted, RangesText, RangesOf, Clean, Tidy, SolidInfos, NamesFrom, Proper;
    if n :| n in names && IsLabel(n) {
      var s :| s != [] && Steps(s) && n == RangesText(RangesOf(s));
      LabelClashes(n, s, names, num);
    } else {
      forall t, u | AlikeInPrint(t, u, names, num) ensures t == u {
        SafeNamesProper(t, names, num);
        SafeNamesProper(u, names, num);
        PrintedTextDetermines(t, u, num);
      }
    }
  }
}
