/** The tray menu built from a status snapshot: targets grouped under a header
    per project (project name, else workspace) in order of first appearance,
    one item per target, and the map from item id to the target's web page that
    the click handler consults. The menu is returned as a plain item list; the
    map is returned beside it instead of being stored in a global. */
module Tray {
  import opened Wrappers
  import opened Text
  import opened Config

  /** The state of the tray icon: all healthy, some failed, or not loaded. */
  datatype TrayStatus = Green | Red | Gray

  /** Icons of the menu entries. */
  datatype MenuIcon = GreenIcon | RedIcon | BlueIcon | GrayIcon

  /** A menu item. `Entry` is the item of the target at position `index` of the
      snapshot; it keeps the URL it was built from so the id-to-URL map can be
      derived from the item list. */
  datatype MenuItem =
    | Label(id: string, text: string, enabled: bool)
    | Entry(index: nat, text: string, enabled: bool, icon: MenuIcon, url: Option<string>)
    | Separator

  /** The menu and its id-to-URL map. */
  datatype StatusMenu = StatusMenu(items: seq<MenuItem>, urls: map<string, string>)

  /** A project's items: its header and the entries of its targets. */
  datatype ProjectGroup = ProjectGroup(header: MenuItem, entries: seq<MenuItem>)

  /** Id of the entry for the target at position `i`. */
  function PipelineId(i: nat): string {
    "pipeline_" + NatToString(i)
  }

  /** Distinct targets get distinct entry ids. */
  lemma {:induction false} PipelineIdInjective(i: nat, j: nat)
    ensures PipelineId(i) == PipelineId(j) <==> i == j
  {
    if PipelineId(i) == PipelineId(j) {
      assert NatToString(i) == PipelineId(i)[9..];
      assert NatToString(j) == PipelineId(j)[9..];
      NatToStringInjective(i, j);
    }
  }

  /** The grouping key of a target: its project name, else its workspace. */
  function ProjectKey(p: PipelineStatusInfo): (r: string)
    ensures p.projectName.Some? ==> r == p.projectName.value
    ensures p.projectName.None? ==> r == p.workspace
  {
    p.projectName.GetOr(p.workspace)
  }

  /** Some target has grouping key `key`. */
  ghost predicate HasKey(s: seq<PipelineStatusInfo>, key: string) {
    exists i :: 0 <= i < |s| && ProjectKey(s[i]) == key
  }

  /** `i` is the first position whose target has grouping key `key`. */
  ghost predicate FirstWithKey(s: seq<PipelineStatusInfo>, key: string, i: int) {
    0 <= i < |s| && ProjectKey(s[i]) == key && forall j :: 0 <= j < i ==> ProjectKey(s[j]) != key
  }

  /** The distinct grouping keys in order of first appearance. */
  function Projects(s: seq<PipelineStatusInfo>): (r: seq<string>)
    ensures forall a, b :: 0 <= a < b < |r| ==> r[a] != r[b]
    ensures forall k :: 0 <= k < |r| ==> HasKey(s, r[k])
    ensures forall i :: 0 <= i < |s| ==> ProjectKey(s[i]) in r
  {
    if |s| == 0 then []
    else
      var prefix := Projects(s[..|s| - 1]);
      var key := ProjectKey(s[|s| - 1]);
      assert forall i :: 0 <= i < |s| - 1 ==> s[i] == s[..|s| - 1][i];
      if key in prefix then prefix else prefix + [key]
  }

  /** Projects are listed in the order their first targets appear. */
  lemma {:induction false} ProjectsInFirstAppearanceOrder(s: seq<PipelineStatusInfo>, a: nat, b: nat, i: int, j: int)
    requires a < b < |Projects(s)|
    requires FirstWithKey(s, Projects(s)[a], i) && FirstWithKey(s, Projects(s)[b], j)
    ensures i < j
  {
    var n := |s| - 1;
    var prefix := s[..n];
    var pp := Projects(prefix);
    var r := Projects(s);
    assert r == pp || r == pp + [ProjectKey(s[n])];
    assert a < |pp|;
    assert r[a] == pp[a];
    assert HasKey(prefix, r[a]);
    FirstInPrefix(s, r[a], i);
    if b < |pp| {
      assert r[b] == pp[b];
      assert HasKey(prefix, r[b]);
      FirstInPrefix(s, r[b], j);
      ProjectsInFirstAppearanceOrder(prefix, a, b, i, j);
    } else {
      assert r == pp + [ProjectKey(s[n])] && r[b] == ProjectKey(s[n]) && r[b] !in pp;
    }
  }

  /** A key that occurs before the last position first occurs there too. */
  lemma FirstInPrefix(s: seq<PipelineStatusInfo>, key: string, i: int)
    requires |s| > 0 && FirstWithKey(s, key, i) && HasKey(s[..|s| - 1], key)
    ensures i < |s| - 1 && FirstWithKey(s[..|s| - 1], key, i)
  {
  }

  /** The suffix that tells a target's state in its entry: nothing for a
      healthy or unknown target, and for a paused one its stage in
      parentheses, "paused" when the stage is not known. */
  function StatusSuffix(p: PipelineStatusInfo): (r: string)
    ensures r == "" <==> p.state == Healthy || p.state == Unknown
    ensures p.state == Failed ==> r == " - FAILED"
    ensures p.state == InProgress ==> r == " - running"
    ensures p.state == Paused ==> r == " - (" + p.stageName.GetOr("paused") + ")"
  {
    match p.state
    case Healthy => ""
    case Failed => " - FAILED"
    case InProgress => " - running"
    case Paused => " - (" + p.stageName.GetOr("paused") + ")"
    case Unknown => ""
  }

  /** The icon of a target's entry: red for failed, blue for running, gray
      for unknown, and green for healthy and paused targets alike. */
  function IconFor(st: PipelineState): (r: MenuIcon)
    ensures r == RedIcon <==> st == Failed
    ensures r == BlueIcon <==> st == InProgress
    ensures r == GrayIcon <==> st == Unknown
    ensures r == GreenIcon <==> st == Healthy || st == Paused
  {
    match st
    case Healthy => GreenIcon
    case Failed => RedIcon
    case InProgress => BlueIcon
    case Paused => GreenIcon
    case Unknown => GrayIcon
  }

  /** Entries of failed, running and paused targets tell those states apart;
      healthy and unknown entries carry no suffix. */
  lemma SuffixTellsState(p: PipelineStatusInfo, q: PipelineStatusInfo)
    ensures StatusSuffix(p) == "" <==> p.state == Healthy || p.state == Unknown
    ensures StatusSuffix(p) == StatusSuffix(q) && StatusSuffix(p) != "" ==> p.state == q.state
  {
    if StatusSuffix(p) == StatusSuffix(q) && StatusSuffix(p) != "" {
      assert StatusSuffix(p)[3] == StatusSuffix(q)[3];
    }
  }

  /** The entry for the target at position `i`: indented display name and
      state suffix, enabled exactly when the target has a URL. */
  function EntryItem(s: seq<PipelineStatusInfo>, i: nat): (r: MenuItem)
    requires i < |s|
    ensures r.Entry? && r.index == i && r.url == s[i].pipelineUrl
    ensures r.enabled <==> s[i].pipelineUrl.Some?
    ensures r.icon == IconFor(s[i].state)
  {
    Entry(i, "  " + DisplayName(s[i]) + StatusSuffix(s[i]), s[i].pipelineUrl.Some?,
          IconFor(s[i].state), s[i].pipelineUrl)
  }

  /** An entry's text is the indented display name followed by the state suffix. */
  lemma EntryText(s: seq<PipelineStatusInfo>, i: nat)
    requires i < |s|
    ensures StartsWith(EntryItem(s, i).text, "  " + DisplayName(s[i]))
    ensures EndsWith(EntryItem(s, i).text, StatusSuffix(s[i]))
    ensures |EntryItem(s, i).text| == 2 + |DisplayName(s[i])| + |StatusSuffix(s[i])|
  {
  }

  /** The entries, from position `from` on, of the targets with key `key`. */
  function GroupEntries(s: seq<PipelineStatusInfo>, key: string, from: nat): (r: seq<MenuItem>)
    ensures from <= |s| ==> |r| <= |s| - from
    ensures from >= |s| ==> r == []
    decreases |s| - from
  {
    if from >= |s| then []
    else
      var rest := GroupEntries(s, key, from + 1);
      if ProjectKey(s[from]) == key then [EntryItem(s, from)] + rest else rest
  }

  /** Every entry of `r` is the entry of a target from position `from` on
      with key `key`, built from its own position, and the entries are in
      position order. */
  ghost predicate SoundGroup(r: seq<MenuItem>, s: seq<PipelineStatusInfo>, key: string, from: nat) {
    && (forall n :: 0 <= n < |r| ==>
          r[n].Entry? && from <= r[n].index < |s| && ProjectKey(s[r[n].index]) == key
          && r[n] == EntryItem(s, r[n].index))
    && (forall n, m :: 0 <= n < m < |r| ==> r[n].index < r[m].index)
  }

  /** A group holds only entries of targets with the group's key, in position order. */
  lemma {:induction false} GroupEntriesSound(s: seq<PipelineStatusInfo>, key: string, from: nat)
    ensures SoundGroup(GroupEntries(s, key, from), s, key, from)
    decreases |s| - from
  {
    if from < |s| {
      GroupEntriesSound(s, key, from + 1);
      var rest := GroupEntries(s, key, from + 1);
      var r := GroupEntries(s, key, from);
      if ProjectKey(s[from]) == key {
        assert r == [EntryItem(s, from)] + rest;
        SoundGroupCons(EntryItem(s, from), rest, s, key, from);
      } else {
        assert r == rest;
      }
    }
  }

  /** The entry of the target at `from`, in front of a sound group from the
      next position on, is a sound group from `from` on. */
  lemma SoundGroupCons(e: MenuItem, rest: seq<MenuItem>, s: seq<PipelineStatusInfo>, key: string, from: nat)
    requires from < |s| && ProjectKey(s[from]) == key && e == EntryItem(s, from)
    requires SoundGroup(rest, s, key, from + 1)
    ensures SoundGroup([e] + rest, s, key, from)
  {
    var r := [e] + rest;
    assert forall n :: 1 <= n < |r| ==> r[n] == rest[n - 1];
  }

  /** The header of the project at position `k`. */
  function ProjectHeader(k: nat, project: string): (r: MenuItem)
    ensures r.Label? && !r.enabled && StartsWith(r.id, "proj_header_")
    ensures |r.text| == |project| && forall j :: 0 <= j < |project| ==> r.text[j] == UpperChar(project[j])
  {
    Label("proj_header_" + NatToString(k), AsciiUpper(project), false)
  }

  /** Menu ids are unique: project headers of distinct positions have distinct
      ids, and no header id is the id of a target's entry. */
  lemma {:induction false} HeaderIdsDistinct(k1: nat, k2: nat, p1: string, p2: string, i: nat)
    ensures ProjectHeader(k1, p1).id == ProjectHeader(k2, p2).id <==> k1 == k2
    ensures ProjectHeader(k1, p1).id != PipelineId(i)
  {
    var pre := "proj_header_";
    assert ProjectHeader(k1, p1).id[|pre|..] == NatToString(k1);
    assert ProjectHeader(k2, p2).id[|pre|..] == NatToString(k2);
    NatToStringInjective(k1, k2);
    assert ProjectHeader(k1, p1).id[1] == 'r';
    assert PipelineId(i)[1] == 'i';
  }

  /** One group per project, in project order. */
  function Groups(s: seq<PipelineStatusInfo>): (r: seq<ProjectGroup>)
    ensures |r| == |Projects(s)|
    ensures forall k :: 0 <= k < |r| ==>
      r[k].header == ProjectHeader(k, Projects(s)[k]) && r[k].entries == GroupEntries(s, Projects(s)[k], 0)
  {
    var projects := Projects(s);
    seq(|projects|, k requires 0 <= k < |projects| => ProjectGroup(ProjectHeader(k, projects[k]), GroupEntries(s, projects[k], 0)))
  }

  /** The groups laid out in order, with a separator between consecutive groups. */
  function Flatten(groups: seq<ProjectGroup>): seq<MenuItem> {
    if |groups| == 0 then []
    else
      [groups[0].header] + groups[0].entries + (if |groups| > 1 then [Separator] else [])
        + Flatten(groups[1..])
  }

  /** The number of entries for position `i`. */
  function CountIndex(items: seq<MenuItem>, i: nat): nat {
    if |items| == 0 then 0
    else (if items[0].Entry? && items[0].index == i then 1 else 0) + CountIndex(items[1..], i)
  }

  /** The number of separators. */
  function CountSeparators(items: seq<MenuItem>): nat {
    if |items| == 0 then 0
    else (if items[0].Separator? then 1 else 0) + CountSeparators(items[1..])
  }

  lemma CountsOfCons(e: MenuItem, rest: seq<MenuItem>, i: nat)
    ensures CountIndex([e] + rest, i) == (if e.Entry? && e.index == i then 1 else 0) + CountIndex(rest, i)
    ensures CountSeparators([e] + rest) == (if e.Separator? then 1 else 0) + CountSeparators(rest)
  {
    assert ([e] + rest)[1..] == rest;
  }

  lemma {:induction false} CountsOfConcat(a: seq<MenuItem>, b: seq<MenuItem>, i: nat)
    ensures CountIndex(a + b, i) == CountIndex(a, i) + CountIndex(b, i)
    ensures CountSeparators(a + b) == CountSeparators(a) + CountSeparators(b)
  {
    if |a| > 0 {
      assert (a + b)[1..] == a[1..] + b;
      CountsOfConcat(a[1..], b, i);
    } else {
      assert a + b == b;
    }
  }

  /** A target's entry appears in its own project's group, once, and nowhere else. */
  lemma {:induction false} GroupEntriesCount(s: seq<PipelineStatusInfo>, key: string, from: nat, i: nat)
    ensures CountIndex(GroupEntries(s, key, from), i)
            == (if from <= i < |s| && ProjectKey(s[i]) == key then 1 else 0)
    ensures CountSeparators(GroupEntries(s, key, from)) == 0
    decreases |s| - from
  {
    if from < |s| {
      GroupEntriesCount(s, key, from + 1, i);
      GroupEntriesStep(s, key, from, i);
    } else {
      assert GroupEntries(s, key, from) == [];
    }
  }

  /** One step of a group: the target at `from` contributes its own entry when its key matches. */
  lemma GroupEntriesStep(s: seq<PipelineStatusInfo>, key: string, from: nat, i: nat)
    requires from < |s|
    ensures CountIndex(GroupEntries(s, key, from), i)
            == (if ProjectKey(s[from]) == key && i == from then 1 else 0) + CountIndex(GroupEntries(s, key, from + 1), i)
    ensures CountSeparators(GroupEntries(s, key, from)) == CountSeparators(GroupEntries(s, key, from + 1))
  {
    var rest := GroupEntries(s, key, from + 1);
    if ProjectKey(s[from]) == key {
      var e := EntryItem(s, from);
      assert GroupEntries(s, key, from) == [e] + rest;
      CountsOfCons(e, rest, i);
    }
  }

  /** The layout of the first group in front of the rest. */
  lemma FlattenStep(g: seq<ProjectGroup>, i: nat)
    requires |g| > 0
    ensures CountIndex(Flatten(g), i)
            == CountIndex([g[0].header], i) + CountIndex(g[0].entries, i) + CountIndex(Flatten(g[1..]), i)
    ensures CountSeparators(Flatten(g))
            == CountSeparators([g[0].header]) + CountSeparators(g[0].entries) + (if |g| > 1 then 1 else 0)
               + CountSeparators(Flatten(g[1..]))
  {
    var sep: seq<MenuItem> := if |g| > 1 then [Separator] else [];
    var head := [g[0].header] + g[0].entries;
    CountsOfConcat([g[0].header], g[0].entries, i);
    CountsOfConcat(head, sep, i);
    CountsOfConcat(head + sep, Flatten(g[1..]), i);
  }

  /** A header is neither an entry nor a separator. */
  lemma HeaderCounts(h: MenuItem, i: nat)
    requires h.Label?
    ensures CountIndex([h], i) == 0 && CountSeparators([h]) == 0
  {
    assert [h][1..] == [];
  }

  /** In a list of distinct keys, a key is in the list exactly when it is the
      first key or in the rest, and the first key is not in the rest. */
  lemma FirstKeyOnce(ps: seq<string>, key: string)
    requires |ps| > 0
    requires forall a, b :: 0 <= a < b < |ps| ==> ps[a] != ps[b]
    ensures key in ps <==> key == ps[0] || key in ps[1..]
    ensures key == ps[0] ==> key !in ps[1..]
  {
    assert ps == [ps[0]] + ps[1..];
    forall b | 0 <= b < |ps| - 1
      ensures ps[1..][b] != ps[0]
    {
      assert ps[1..][b] == ps[b + 1];
    }
  }

  /** Counts over groups built for distinct keys `ps`, one group per key. */
  lemma {:induction false} FlattenCounts(s: seq<PipelineStatusInfo>, ps: seq<string>, gs: seq<ProjectGroup>, i: nat)
    requires |gs| == |ps|
    requires forall a, b :: 0 <= a < b < |ps| ==> ps[a] != ps[b]
    requires forall k :: 0 <= k < |gs| ==> gs[k].header.Label? && gs[k].entries == GroupEntries(s, ps[k], 0)
    ensures CountIndex(Flatten(gs), i) == (if i < |s| && ProjectKey(s[i]) in ps then 1 else 0)
    ensures CountSeparators(Flatten(gs)) == if |gs| == 0 then 0 else |gs| - 1
  {
    if |gs| > 0 {
      FlattenCounts(s, ps[1..], gs[1..], i);
      GroupEntriesCount(s, ps[0], 0, i);
      FlattenStep(gs, i);
      HeaderCounts(gs[0].header, i);
      if i < |s| {
        FirstKeyOnce(ps, ProjectKey(s[i]));
      }
    }
  }

  /** Every target appears exactly once among the grouped entries; positions
      past the end do not appear. There is a separator between consecutive
      groups and none after the last. */
  lemma EachTargetOnce(s: seq<PipelineStatusInfo>, i: nat)
    ensures CountIndex(Flatten(Groups(s)), i) == (if i < |s| then 1 else 0)
    ensures CountSeparators(Flatten(Groups(s))) == if |Projects(s)| == 0 then 0 else |Projects(s)| - 1
  {
    FlattenCounts(s, Projects(s), Groups(s), i);
  }

  /** Every item of `items` is the entry of the target at its own position. */
  ghost predicate WellFormedEntries(items: seq<MenuItem>, s: seq<PipelineStatusInfo>) {
    forall n :: 0 <= n < |items| ==> items[n].Entry? && items[n].index < |s| && items[n] == EntryItem(s, items[n].index)
  }

  /** Every entry among `items` is the entry of the target at its own position;
      headers and separators are not constrained. */
  ghost predicate EntriesMatch(items: seq<MenuItem>, s: seq<PipelineStatusInfo>) {
    forall n :: 0 <= n < |items| && items[n].Entry? ==>
      items[n].index < |s| && items[n] == EntryItem(s, items[n].index)
  }

  lemma EntriesMatchConcat(a: seq<MenuItem>, b: seq<MenuItem>, s: seq<PipelineStatusInfo>)
    requires EntriesMatch(a, s) && EntriesMatch(b, s)
    ensures EntriesMatch(a + b, s)
  {
    forall n | 0 <= n < |a + b| && (a + b)[n].Entry?
      ensures (a + b)[n].index < |s| && (a + b)[n] == EntryItem(s, (a + b)[n].index)
    {
      if n < |a| {
        assert (a + b)[n] == a[n];
      } else {
        assert (a + b)[n] == b[n - |a|];
      }
    }
  }

  /** Every item in the grouped section is a header, a separator, or the
      entry of the target at its own position; the section does not end in a
      separator. */
  lemma {:induction false} FlattenItems(gs: seq<ProjectGroup>, s: seq<PipelineStatusInfo>)
    requires forall k :: 0 <= k < |gs| ==> gs[k].header.Label?
    requires forall k :: 0 <= k < |gs| ==> WellFormedEntries(gs[k].entries, s)
    ensures EntriesMatch(Flatten(gs), s)
    ensures |gs| > 0 ==> !Flatten(gs)[|Flatten(gs)| - 1].Separator?
  {
    if |gs| > 0 {
      FlattenItems(gs[1..], s);
      var sep: seq<MenuItem> := if |gs| > 1 then [Separator] else [];
      var head := [gs[0].header] + gs[0].entries;
      var rest := Flatten(gs[1..]);
      assert EntriesMatch(gs[0].entries, s);
      EntriesMatchConcat([gs[0].header], gs[0].entries, s);
      EntriesMatchConcat(head, sep, s);
      EntriesMatchConcat(head + sep, rest, s);
      var f := Flatten(gs);
      assert f == head + sep + rest;
      if |gs| == 1 {
        assert rest == [];
        if |gs[0].entries| > 0 {
          assert f[|f| - 1] == gs[0].entries[|gs[0].entries| - 1];
        }
      }
    }
  }

  /** The id-to-URL map: every entry with a URL maps its id to that URL, later
      entries overwriting earlier ones. */
  function UrlMap(items: seq<MenuItem>): (r: map<string, string>)
    ensures forall n :: 0 <= n < |items| && items[n].Entry? && items[n].url.Some? ==>
      PipelineId(items[n].index) in r
    ensures forall key :: key in r ==>
      exists n :: 0 <= n < |items| && items[n].Entry? && items[n].url.Some?
                  && PipelineId(items[n].index) == key && r[key] == items[n].url.value
  {
    if |items| == 0 then map[]
    else
      var prev := UrlMap(items[..|items| - 1]);
      var last := items[|items| - 1];
      if last.Entry? && last.url.Some? then prev[PipelineId(last.index) := last.url.value] else prev
  }

  /** The actions at the bottom of every menu. */
  const ActionItems: seq<MenuItem> := [
    Separator,
    Label("refresh", "Refresh Now", true),
    Label("settings", "Settings...", true),
    Label("quit", "Quit", true)]

  /** The grouped section of a snapshot. */
  function PipelineSection(s: seq<PipelineStatusInfo>): seq<MenuItem> {
    Flatten(Groups(s))
  }

  /** The menu for a snapshot, or the "not configured" menu without one. */
  function BuildStatusMenu(status: Option<OverallStatus>): (m: StatusMenu)
    ensures |m.items| >= |ActionItems| && m.items[|m.items| - |ActionItems|..] == ActionItems
    ensures status.None? ==> m.items == [Label("no_status", "No pipelines configured", false)] + ActionItems
                             && m.urls == map[]
    ensures status.Some? ==>
      var section := PipelineSection(status.value.pipelineStatuses);
      m.items == section + [Separator, Label("last_checked", "Last checked: " + status.value.lastChecked, false)]
                 + ActionItems
  {
    match status
    case None => StatusMenu([Label("no_status", "No pipelines configured", false)] + ActionItems, map[])
    case Some(st) =>
      var section := PipelineSection(st.pipelineStatuses);
      StatusMenu(section + [Separator, Label("last_checked", "Last checked: " + st.lastChecked, false)] + ActionItems,
                 UrlMap(section))
  }

  /** In the grouped section every entry is the entry of the target at its
      own position, and the section ends with no separator. */
  lemma SectionItems(s: seq<PipelineStatusInfo>)
    ensures forall n :: 0 <= n < |PipelineSection(s)| && PipelineSection(s)[n].Entry? ==>
      PipelineSection(s)[n].index < |s| && PipelineSection(s)[n] == EntryItem(s, PipelineSection(s)[n].index)
    ensures |Projects(s)| > 0 ==> !PipelineSection(s)[|PipelineSection(s)| - 1].Separator?
  {
    var gs := Groups(s);
    forall k | 0 <= k < |gs| ensures WellFormedEntries(gs[k].entries, s) {
      GroupEntriesSound(s, Projects(s)[k], 0);
    }
    FlattenItems(gs, s);
  }

  /** In the menu of a snapshot, the id of the entry at position `i` is in the
      URL map exactly when the target has a URL, and maps to that URL; no other
      id is in the map. */
  lemma MenuUrls(st: OverallStatus, i: nat)
    ensures var m := BuildStatusMenu(Some(st));
      var s := st.pipelineStatuses;
      && (PipelineId(i) in m.urls <==> i < |s| && s[i].pipelineUrl.Some?)
      && (PipelineId(i) in m.urls ==> m.urls[PipelineId(i)] == s[i].pipelineUrl.value)
  {
    var s := st.pipelineStatuses;
    var section := PipelineSection(s);
    assert BuildStatusMenu(Some(st)).urls == UrlMap(section);
    SectionItems(s);
    if i < |s| && s[i].pipelineUrl.Some? {
      UrlOfListedTarget(s, i);
    }
    UrlOfMappedId(s, i);
  }

  /** A target with a URL has its id in the section's URL map. */
  lemma UrlOfListedTarget(s: seq<PipelineStatusInfo>, i: nat)
    requires i < |s| && s[i].pipelineUrl.Some?
    requires EntriesMatch(PipelineSection(s), s)
    ensures PipelineId(i) in UrlMap(PipelineSection(s))
  {
    var section := PipelineSection(s);
    EachTargetOnce(s, i);
    var n := EntryPosition(section, i);
    assert section[n] == EntryItem(s, i);
  }

  /** An id in the section's URL map is that of a target with a URL, and maps
      to that URL. */
  lemma UrlOfMappedId(s: seq<PipelineStatusInfo>, i: nat)
    ensures PipelineId(i) in UrlMap(PipelineSection(s)) ==>
      i < |s| && s[i].pipelineUrl.Some? && UrlMap(PipelineSection(s))[PipelineId(i)] == s[i].pipelineUrl.value
  {
    var section := PipelineSection(s);
    var urls := UrlMap(section);
    if PipelineId(i) !in urls {
      return;
    }
    SectionItems(s);
    var n :| 0 <= n < |section| && section[n].Entry? && section[n].url.Some?
      && PipelineId(section[n].index) == PipelineId(i) && urls[PipelineId(i)] == section[n].url.value;
    PipelineIdInjective(section[n].index, i);
    assert section[n] == EntryItem(s, i);
  }

  /** Every id in the URL map of a snapshot's menu is the id of some target. */
  lemma MenuUrlKeys(st: OverallStatus)
    ensures forall key :: key in BuildStatusMenu(Some(st)).urls ==>
      exists j :: 0 <= j < |st.pipelineStatuses| && key == PipelineId(j)
  {
    var s := st.pipelineStatuses;
    var section := PipelineSection(s);
    SectionItems(s);
  }

  /** An item list in which position `i` is counted has an entry for it. */
  lemma {:induction false} EntryPosition(items: seq<MenuItem>, i: nat) returns (n: nat)
    requires CountIndex(items, i) > 0
    ensures n < |items| && items[n].Entry? && items[n].index == i
  {
    if items[0].Entry? && items[0].index == i {
      n := 0;
    } else {
      var m := EntryPosition(items[1..], i);
      n := m + 1;
    }
  }

  /** Without a snapshot the menu says "No pipelines configured" and no id has a URL. */
  lemma NoStatusMenu()
    ensures BuildStatusMenu(None).items[0] == Label("no_status", "No pipelines configured", false)
    ensures |BuildStatusMenu(None).items| == 1 + |ActionItems|
    ensures BuildStatusMenu(None).urls == map[]
  {
  }
}
