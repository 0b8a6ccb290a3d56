/**
 Reading a ninja log: only the last build in the file is wanted, and nothing marks where it begins. A line
 starts a new build when its end time goes backwards or when it repeats a command with other times. The
 reader cuts greedily; what it returns is the last stretch of the one greedy segmentation of the log.
 */
module NinjaLog {
  import opened Lists

  datatype Entry = Entry(start: real, end: real, name: string, hash: string)

  /** A line with five tab-separated fields, or anything else. */
  datatype Line = Malformed | Record(entry: Entry)

  datatype Target = Target(hash: string, start: real, end: real, names: seq<string>)

  function WellFormed(lines: seq<Line>): (r: seq<Entry>)
  {
    if lines == [] then []
    else WellFormed(lines[..|lines| - 1]) + match lines[|lines| - 1] case Malformed => [] case Record(e) => [e]
  }

  /** Malformed lines are skipped wherever they stand, and every record is kept in its place. */
  lemma {:induction false} SkipsMalformed(a: seq<Line>, b: seq<Line>, e: Entry)
    ensures WellFormed(a + b) == WellFormed(a) + WellFormed(b)
    ensures WellFormed([Malformed]) == [] && WellFormed([Record(e)]) == [e]
  {
    assert [Malformed][..0] == [] && [Record(e)][..0] == [];
    if b == [] {
      assert a + b == a;
    } else {
      var n := |b| - 1;
      SkipsMalformed(a, b[..n], e);
      assert (a + b)[..|a + b| - 1] == a + b[..n];
    }
  }

  // ------------------------------------------------------------------ one build

  /** Ends never go back, and a command keeps its times: what one build's lines look like. */
  ghost predicate OneBuild(es: seq<Entry>) {
    && (forall i, j :: 0 <= i < j < |es| ==> es[i].end <= es[j].end)
    && (forall i, j :: 0 <= i < j < |es| && es[i].hash == es[j].hash ==>
       es[i].start == es[j].start && es[i].end == es[j].end)
  }

  /** Two lines are of one build exactly when the end does not go back and a repeated command kept its times. */
  lemma TwoLines(a: Entry, b: Entry)
    ensures OneBuild([a, b]) <==> a.end <= b.end && (a.hash == b.hash ==> a.start == b.start && a.end == b.end)
  {
    var es := [a, b];
    assert es[0] == a && es[1] == b;
  }

  /** Whether lines are of one build is decided two at a time. */
  lemma PairsDecide(es: seq<Entry>)
    ensures OneBuild(es) <==> forall i, j :: 0 <= i < j < |es| ==> OneBuild([es[i], es[j]])
  {
    forall i, j | 0 <= i < j < |es|
      ensures OneBuild([es[i], es[j]]) <==>
              && es[i].end <= es[j].end
              && (es[i].hash == es[j].hash ==> es[i].start == es[j].start && es[i].end == es[j].end)
    {
      TwoLines(es[i], es[j]);
    }
  }

  /** Greedy cuts of the first `k` entries: every stretch is one build and the entry that ends it would spoil it. */
  ghost predicate GreedyCuts(es: seq<Entry>, cuts: seq<nat>, k: nat) {
    && k <= |es| && cuts != [] && cuts[0] == 0
    && (forall i :: 0 <= i < |cuts| - 1 ==> Stretch(es, cuts[i], cuts[i + 1], k))
    && cuts[|cuts| - 1] <= k && OneBuild(es[cuts[|cuts| - 1]..k])
  }

  ghost predicate Stretch(es: seq<Entry>, a: nat, b: nat, k: nat) {
    a < b < k <= |es| && OneBuild(es[a..b]) && !OneBuild(es[a..b + 1])
  }

  lemma PrefixOneBuild(es: seq<Entry>, m: nat)
    requires OneBuild(es) && m <= |es|
    ensures OneBuild(es[..m])
  {
  }

  /** A stretch can only end in one place. */
  lemma StretchUnique(es: seq<Entry>, a: nat, b: nat, c: nat, k: nat)
    requires Stretch(es, a, b, k) && a <= c <= k && OneBuild(es[a..c])
    ensures c <= b
  {
    hide OneBuild;
    if b < c { PrefixOfStretch(es, a, b + 1, c); }
  }

  lemma PrefixOfStretch(es: seq<Entry>, a: nat, b: nat, c: nat)
    requires a <= b <= c <= |es| && OneBuild(es[a..c])
    ensures OneBuild(es[a..b])
  {
    hide OneBuild;
    assert es[a..c][..b - a] == es[a..b];
    PrefixOneBuild(es[a..c], b - a);
  }

  /** The greedy segmentation is unique, so "the last build" means one thing. */
  lemma {:induction false} GreedyCutsUnique(es: seq<Entry>, cuts: seq<nat>, others: seq<nat>, k: nat, i: nat)
    requires GreedyCuts(es, cuts, k) && GreedyCuts(es, others, k) && i < |cuts|
    ensures i < |others| && cuts[i] == others[i]
  {
    hide OneBuild;
    if i > 0 {
      GreedyCutsUnique(es, cuts, others, k, i - 1);
      var a := cuts[i - 1];
      assert Stretch(es, a, cuts[i], k);
      if i == |others| {
        StretchUnique(es, a, cuts[i], k, k);
      } else {
        assert Stretch(es, a, others[i], k);
        StretchUnique(es, a, cuts[i], others[i], k);
        StretchUnique(es, a, others[i], cuts[i], k);
      }
    }
  }

  lemma GreedyCutsEqual(es: seq<Entry>, cuts: seq<nat>, others: seq<nat>, k: nat)
    requires GreedyCuts(es, cuts, k) && GreedyCuts(es, others, k)
    ensures cuts == others
  {
    hide OneBuild;
    GreedyCutsUnique(es, cuts, others, k, |cuts| - 1);
    GreedyCutsUnique(es, others, cuts, k, |others| - 1);
    forall i | 0 <= i < |cuts| ensures cuts[i] == others[i] { GreedyCutsUnique(es, cuts, others, k, i); }
  }

  // ------------------------------------------------------------------ grouping

  /** Where the dictionary holds a command, if it does. */
  function Find(ts: seq<Target>, hash: string): (r: Option<nat>)
    ensures r.Some? ==> r.value < |ts| && ts[r.value].hash == hash
    ensures r.None? ==> forall t :: t in ts ==> t.hash != hash
  {
    if ts == [] then None
    else if ts[|ts| - 1].hash == hash then Some(|ts| - 1)
    else Find(ts[..|ts| - 1], hash)
  }

  function AddEntry(ts: seq<Target>, e: Entry): seq<Target> {
    match Find(ts, e.hash)
    case Some(i) => ts[i := ts[i].(names := ts[i].names + [e.name])]
    case None => ts + [Target(e.hash, e.start, e.end, [e.name])]
  }

  /** Entries collected by command, in order of first appearance. */
  function Group(es: seq<Entry>): seq<Target> {
    if es == [] then [] else AddEntry(Group(es[..|es| - 1]), es[|es| - 1])
  }

  function NamesOf(es: seq<Entry>, hash: string): seq<string> {
    if es == [] then []
    else NamesOf(es[..|es| - 1], hash) + if es[|es| - 1].hash == hash then [es[|es| - 1].name] else []
  }

  ghost predicate OnePerCommand(ts: seq<Target>) {
    forall i, j :: 0 <= i < j < |ts| ==> ts[i].hash != ts[j].hash
  }

  lemma AddEntryOnePerCommand(ts: seq<Target>, e: Entry)
    requires OnePerCommand(ts)
    ensures OnePerCommand(AddEntry(ts, e))
  {
    hide Find;
    var us := AddEntry(ts, e);
    forall i, j | 0 <= i < j < |us| ensures us[i].hash != us[j].hash {
      assert ts[i] in ts;
      assert us[i].hash == ts[i].hash && (j < |ts| ==> us[j].hash == ts[j].hash);
    }
  }

  lemma {:induction false} GroupOnePerCommand(es: seq<Entry>)
    ensures OnePerCommand(Group(es))
  {
    hide AddEntry, OnePerCommand;
    if es == [] {
      NoTargets();
    } else {
      GroupOnePerCommand(es[..|es| - 1]);
      AddEntryOnePerCommand(Group(es[..|es| - 1]), es[|es| - 1]);
    }
  }

  lemma NoTargets()
    ensures OnePerCommand([])
  {
  }

  /** Nothing is lost or invented: each command's target holds exactly its entries' names, in order. */
  lemma {:induction false} GroupNames(es: seq<Entry>, hash: string)
    ensures match Find(Group(es), hash)
            case Some(i) => Group(es)[i].names == NamesOf(es, hash)
            case None => NamesOf(es, hash) == []
  {
    if es != [] {
      var init, e := es[..|es| - 1], es[|es| - 1];
      GroupNames(init, hash);
      GroupOnePerCommand(init);
      GroupOnePerCommand(es);
      FindAfterAdd(Group(init), e, hash);
    }
  }

  lemma FindUnique(ts: seq<Target>, i: nat)
    requires OnePerCommand(ts) && i < |ts|
    ensures Find(ts, ts[i].hash) == Some(i)
  {
  }

  lemma FindAfterAdd(ts: seq<Target>, e: Entry, hash: string)
    requires OnePerCommand(ts) && OnePerCommand(AddEntry(ts, e))
    ensures hash != e.hash ==> match Find(ts, hash)
              case Some(i) => Find(AddEntry(ts, e), hash) == Some(i) && AddEntry(ts, e)[i] == ts[i]
              case None => Find(AddEntry(ts, e), hash).None?
    ensures Find(AddEntry(ts, e), e.hash).Some?
    ensures AddEntry(ts, e)[Find(AddEntry(ts, e), e.hash).value].names ==
            (match Find(ts, e.hash) case Some(i) => ts[i].names case None => []) + [e.name]
  {
    var us := AddEntry(ts, e);
    match Find(ts, e.hash) {
      case Some(i) => FindUnique(us, i);
      case None => FindUnique(us, |ts|);
    }
    if Find(ts, hash).Some? && hash != e.hash {
      FindUnique(us, Find(ts, hash).value);
    }
  }

  /** The first entry of a command. */
  function FirstAt(es: seq<Entry>, hash: string): (i: nat)
    ensures i <= |es| && (i < |es| ==> es[i].hash == hash) && forall k :: 0 <= k < i ==> es[k].hash != hash
  {
    if es == [] then 0 else if es[0].hash == hash then 0 else 1 + FirstAt(es[1..], hash)
  }

  lemma FirstIs(es: seq<Entry>, hash: string, i: nat)
    requires i <= |es| && (i < |es| ==> es[i].hash == hash) && forall k :: 0 <= k < i ==> es[k].hash != hash
    ensures FirstAt(es, hash) == i
  {
  }

  /** A target carries the times of its command's first entry. */
  ghost predicate TargetFirst(es: seq<Entry>, t: Target) {
    var i := FirstAt(es, t.hash); i < |es| && t.start == es[i].start && t.end == es[i].end
  }

  lemma FirstStays(init: seq<Entry>, e: Entry, hash: string)
    requires FirstAt(init, hash) < |init|
    ensures FirstAt(init + [e], hash) == FirstAt(init, hash)
  {
    hide FirstAt;
    var es, i := init + [e], FirstAt(init, hash);
    assert forall k :: 0 <= k <= i ==> es[k] == init[k];
    FirstIs(es, hash, i);
  }

  lemma AddKeeps(ts: seq<Target>, e: Entry)
    ensures |ts| <= |AddEntry(ts, e)| <= |ts| + 1
    ensures forall k :: 0 <= k < |ts| ==> AddEntry(ts, e)[k].(names := []) == ts[k].(names := [])
    ensures |AddEntry(ts, e)| > |ts| ==>
              Find(ts, e.hash).None? && AddEntry(ts, e)[|ts|] == Target(e.hash, e.start, e.end, [e.name])
  {
  }

  ghost predicate InOrder(es: seq<Entry>, ts: seq<Target>) {
    && (forall i :: 0 <= i < |ts| ==> TargetFirst(es, ts[i]))
    && forall i, j :: 0 <= i < j < |ts| ==> FirstAt(es, ts[i].hash) < FirstAt(es, ts[j].hash)
  }

  /** Targets are listed in the order in which their commands first appear, with the times they first had. */
  lemma {:induction false} GroupInOrder(es: seq<Entry>)
    ensures InOrder(es, Group(es))
  {
    hide FirstAt, AddEntry, InOrder;
    if es == [] {
      NothingInOrder();
    } else {
      var init, e := es[..|es| - 1], es[|es| - 1];
      assert es == init + [e];
      GroupInOrder(init);
      AddKeeps(Group(init), e);
      if |AddEntry(Group(init), e)| > |Group(init)| { NewCommand(es); }
      AddInOrder(init, Group(init), e);
    }
  }

  lemma NothingInOrder()
    ensures InOrder([], [])
  {
  }

  lemma AddInOrder(init: seq<Entry>, ts: seq<Target>, e: Entry)
    requires InOrder(init, ts)
    requires |AddEntry(ts, e)| > |ts| ==> FirstAt(init + [e], e.hash) == |init|
    ensures InOrder(init + [e], AddEntry(ts, e))
  {
    hide FirstAt, AddEntry, TargetFirst;
    var es, us := init + [e], AddEntry(ts, e);
    AddKeeps(ts, e);
    forall k | 0 <= k < |us|
      ensures TargetFirst(es, us[k])
      ensures k < |ts| ==> FirstAt(es, us[k].hash) == FirstAt(init, ts[k].hash) < |init|
      ensures k == |ts| ==> FirstAt(es, us[k].hash) == |init|
    {
      if k < |ts| {
        assert us[k].(names := []) == ts[k].(names := []);
        StillFirst(init, e, ts[k], us[k]);
      } else {
        NewIsFirst(init, e, us[k]);
      }
    }
  }

  lemma StillFirst(init: seq<Entry>, e: Entry, t: Target, u: Target)
    requires TargetFirst(init, t) && u.(names := []) == t.(names := [])
    ensures TargetFirst(init + [e], u) && FirstAt(init + [e], u.hash) == FirstAt(init, t.hash) < |init|
  {
    hide FirstAt;
    assert u.hash == t.hash && u.start == t.start && u.end == t.end;
    FirstStays(init, e, t.hash);
  }

  lemma NewIsFirst(init: seq<Entry>, e: Entry, t: Target)
    requires FirstAt(init + [e], e.hash) == |init| && t == Target(e.hash, e.start, e.end, [e.name])
    ensures TargetFirst(init + [e], t)
  {
    hide FirstAt;
  }

  lemma NewCommand(es: seq<Entry>)
    requires es != [] && Find(Group(es[..|es| - 1]), es[|es| - 1].hash).None?
    ensures FirstAt(es, es[|es| - 1].hash) == |es| - 1
  {
    var init, e := es[..|es| - 1], es[|es| - 1];
    forall k | 0 <= k < |es| - 1 ensures es[k].hash != e.hash {
      GroupHas(init, k);
    }
    FirstIs(es, e.hash, |es| - 1);
  }

  lemma {:induction false} GroupHas(es: seq<Entry>, k: nat)
    requires k < |es|
    ensures Find(Group(es), es[k].hash).Some?
    decreases |es|
  {
    var init, e := es[..|es| - 1], es[|es| - 1];
    GroupOnePerCommand(init);
    GroupOnePerCommand(es);
    FindAfterAdd(Group(init), e, es[k].hash);
    if k < |es| - 1 { GroupHas(init, k); }
  }

  /** Within one build, every entry of a group carries the times of its target. */
  lemma {:induction false} GroupTimes(es: seq<Entry>, k: nat)
    requires OneBuild(es) && k < |es|
    ensures Find(Group(es), es[k].hash).Some?
    ensures var t := Group(es)[Find(Group(es), es[k].hash).value]; t.start == es[k].start && t.end == es[k].end
    decreases |es|
  {
    var init, e := es[..|es| - 1], es[|es| - 1];
    PrefixOneBuild(es, |es| - 1);
    GroupOnePerCommand(init);
    GroupOnePerCommand(es);
    FindAfterAdd(Group(init), e, es[k].hash);
    if k < |es| - 1 {
      GroupTimes(init, k);
      var i := Find(Group(init), es[k].hash).value;
      if es[k].hash == e.hash { FindUnique(Group(es), i); }
    } else {
      match Find(Group(init), e.hash) {
        case None => FindUnique(Group(es), |Group(init)|);
        case Some(i) =>
          FindUnique(Group(es), i);
          var j := FirstOf(init, e.hash);
          GroupTimes(init, j);
      }
    }
  }

  lemma {:induction false} FirstOf(es: seq<Entry>, hash: string) returns (j: nat)
    requires Find(Group(es), hash).Some?
    ensures j < |es| && es[j].hash == hash
  {
    var init, e := es[..|es| - 1], es[|es| - 1];
    GroupOnePerCommand(init);
    GroupOnePerCommand(es);
    FindAfterAdd(Group(init), e, hash);
    if e.hash == hash { j := |es| - 1; } else { j := FirstOf(init, hash); }
  }

  // ------------------------------------------------------------------ the reader

  lemma CutsNonEmptyStretch(es: seq<Entry>, cuts: seq<nat>)
    requires GreedyCuts(es, cuts, |es|) && es != []
    ensures cuts[|cuts| - 1] < |es|
  {
    if |cuts| > 1 { assert Stretch(es, cuts[|cuts| - 2], cuts[|cuts| - 2 + 1], |es|); }
  }

  /** One more entry either extends the current build or is where the next greedy cut falls. */
  lemma CutsNext(es: seq<Entry>, cuts: seq<nat>, e: Entry)
    requires GreedyCuts(es, cuts, |es|)
    ensures var c, es' := cuts[|cuts| - 1], es + [e];
            if OneBuild(es[c..] + [e]) then GreedyCuts(es', cuts, |es'|)
            else c < |es| && GreedyCuts(es', cuts + [|es|], |es'|)
  {
    hide OneBuild;
    var c, es' := cuts[|cuts| - 1], es + [e];
    forall i | 0 <= i < |cuts| - 1 ensures Stretch(es', cuts[i], cuts[i + 1], |es'|) {
      assert Stretch(es, cuts[i], cuts[i + 1], |es|);
      assert es'[cuts[i]..cuts[i + 1]] == es[cuts[i]..cuts[i + 1]];
      assert es'[cuts[i]..cuts[i + 1] + 1] == es[cuts[i]..cuts[i + 1] + 1];
    }
    assert es'[c..|es'|] == es[c..] + [e];
    assert es'[c..|es|] == es[c..|es|];
    SingleBuild(e);
    if !OneBuild(es[c..] + [e]) {
      assert c < |es| by { assert es[|es|..] + [e] == [e]; }
      assert Stretch(es', c, |es|, |es'|);
      assert es'[|es|..|es'|] == [e];
      var more := cuts + [|es|];
      forall i | 0 <= i < |more| - 1 ensures Stretch(es', more[i], more[i + 1], |es'|) {
        if i < |cuts| - 1 { assert Stretch(es', cuts[i], cuts[i + 1], |es'|); }
      }
    }
  }

  lemma SingleBuild(e: Entry)
    ensures OneBuild([e])
  {
  }

  /** The reader's two tests for staying in the build so far. */
  ghost predicate Belongs(seg: seq<Entry>, e: Entry) {
    && (seg != [] ==> seg[|seg| - 1].end <= e.end)
    && match Find(Group(seg), e.hash)
       case None => true
       case Some(i) => Group(seg)[i].start == e.start && Group(seg)[i].end == e.end
  }

  lemma BelongsIfOneBuild(seg: seq<Entry>, e: Entry)
    requires OneBuild(seg) && OneBuild(seg + [e])
    ensures Belongs(seg, e)
  {
    hide Find, Group;
    var all := seg + [e];
    if seg != [] { assert all[|seg| - 1].end <= all[|seg|].end; }
    if Find(Group(seg), e.hash).Some? {
      var j := FirstOf(seg, e.hash);
      GroupTimes(seg, j);
      assert all[j].hash == all[|seg|].hash;
    }
  }

  lemma OneBuildIfBelongs(seg: seq<Entry>, e: Entry)
    requires OneBuild(seg) && Belongs(seg, e)
    ensures OneBuild(seg + [e])
  {
    hide Find, Group;
    var all := seg + [e];
    forall i | 0 <= i < |seg|
      ensures seg[i].end <= e.end
      ensures seg[i].hash == e.hash ==> seg[i].start == e.start && seg[i].end == e.end
    {
      GroupTimes(seg, i);
      if i < |seg| - 1 { assert seg[i].end <= seg[|seg| - 1].end; }
    }
  }

  /** Exactly the two tests of the reader decide whether an entry still belongs to the build so far. */
  lemma BelongsIff(seg: seq<Entry>, e: Entry)
    requires OneBuild(seg)
    ensures OneBuild(seg + [e]) <==> Belongs(seg, e)
  {
    hide OneBuild, Belongs;
    if OneBuild(seg + [e]) { BelongsIfOneBuild(seg, e); }
    if Belongs(seg, e) { OneBuildIfBelongs(seg, e); }
  }

  lemma GroupSnoc(seg: seq<Entry>, e: Entry)
    ensures Group(seg + [e]) == AddEntry(Group(seg), e)
  {
    assert (seg + [e])[..|seg|] == seg;
  }

  /**
   The reader. A header other than version 5 is refused; malformed lines are skipped. Without `showAll` it
   returns the grouping of the last stretch of the greedy segmentation, with it the grouping of everything.
   */
  method ReadTargets(header: string, lines: seq<Line>, showAll: bool)
    returns (r: Option<seq<Target>>, ghost cuts: seq<nat>)
    ensures r.Some? <==> header == "# ninja log v5\n"
    ensures r.Some? && showAll ==> r.value == Group(WellFormed(lines))
    ensures r.Some? && !showAll ==>
              var es := WellFormed(lines);
              GreedyCuts(es, cuts, |es|) && r.value == Group(es[cuts[|cuts| - 1]..])
  {
    hide OneBuild, GreedyCuts, Group, Find, WellFormed, NextCuts;
    cuts := [0];
    if header != "# ninja log v5\n" {
      return None, cuts;
    }
    var targets: seq<Target> := [];
    var lastEnd := 0.0;
    ghost var es: seq<Entry> := [];
    NoCuts();
    for k := 0 to |lines|
      invariant es == WellFormed(lines[..k])
      invariant lastEnd == if es == [] then 0.0 else es[|es| - 1].end
      invariant GreedyCuts(es, cuts, |es|) && cuts != [] && cuts[|cuts| - 1] <= |es|
      invariant targets == if showAll then Group(es) else Group(es[cuts[|cuts| - 1]..])
    {
      WellFormedNext(lines, k);
      if lines[k].Malformed? {
        continue;
      }
      var e := lines[k].entry;
      EntryStep(es, cuts, e);
      if !showAll && e.end < lastEnd {
        targets := [];
      }
      var found := Find(targets, e.hash);
      if found.Some? && !showAll && (targets[found.value].start != e.start || targets[found.value].end != e.end) {
        targets := [];
        found := None;
      }
      if found.None? {
        targets := targets + [Target(e.hash, e.start, e.end, [e.name])];
      } else {
        targets := targets[found.value := targets[found.value].(names := targets[found.value].names + [e.name])];
      }
      lastEnd := e.end;
      cuts := NextCuts(es, cuts, e);
      es := es + [e];
    }
    assert lines[..|lines|] == lines;
    r := Some(targets);
  }

  lemma WellFormedNext(lines: seq<Line>, k: nat)
    requires k < |lines|
    ensures WellFormed(lines[..k + 1]) ==
            WellFormed(lines[..k]) + match lines[k] case Malformed => [] case Record(e) => [e]
  {
    assert lines[..k + 1][..k] == lines[..k];
  }

  lemma NoCuts()
    ensures GreedyCuts([], [0], 0) && Group([]) == [] && WellFormed([]) == []
  {
  }

  ghost function NextCuts(es: seq<Entry>, cuts: seq<nat>, e: Entry): seq<nat>
    requires cuts != [] && cuts[|cuts| - 1] <= |es|
  {
    if OneBuild(es[cuts[|cuts| - 1]..] + [e]) then cuts else cuts + [|es|]
  }

  /** Everything the loop body needs about one entry. */
  lemma EntryStep(es: seq<Entry>, cuts: seq<nat>, e: Entry)
    requires GreedyCuts(es, cuts, |es|)
    ensures cuts != [] && cuts[|cuts| - 1] <= |es|
    ensures var next := NextCuts(es, cuts, e);
            next != [] && next[|next| - 1] <= |es| + 1 && GreedyCuts(es + [e], next, |es + [e]|)
    ensures var c, next := cuts[|cuts| - 1], NextCuts(es, cuts, e);
            Group((es + [e])[next[|next| - 1]..]) ==
                if Belongs(es[c..], e) then AddEntry(Group(es[c..]), e) else AddEntry([], e)
    ensures es != [] ==> cuts[|cuts| - 1] < |es|
    ensures Group(es + [e]) == AddEntry(Group(es), e)
    ensures es == [] ==> Group(es[cuts[|cuts| - 1]..]) == []
  {
    hide OneBuild, Stretch, Group, Find, AddEntry, Belongs;
    var c, next := cuts[|cuts| - 1], NextCuts(es, cuts, e);
    var seg := es[c..];
    assert es[c..|es|] == seg;
    CutsNext(es, cuts, e);
    BelongsIff(seg, e);
    GroupSnoc(es, e);
    GroupSnoc(seg, e);
    if es != [] { CutsNonEmptyStretch(es, cuts); }
    assert (es + [e])[c..] == seg + [e];
    assert (es + [e])[|es|..] == [e];
    assert [] + [e] == [e];
    NoCuts();
    GroupSnoc([], e);
    if es == [] { assert seg == []; }
  }
}
