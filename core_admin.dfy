/** The admin site's helpers: the prefix search parser, the change-list ordering without `-pk`,
    the finalized / not-finalized list filters, the JSON textarea's size, geometry truncation
    and the organization prefix a team's username gets on save. */
module CoreAdmin {
  import opened Wrappers
  import opened Text
  import opened CoreModels

  // Messages of the exceptions and validation errors raised by this part of the code.
  const FilterChoicesHint := " (was expecting 'finalized' or 'not finalized')"

  // ---------------------------------------------------------------- search_parser

  /** The keys of one prefix's entry in a `filter_config`: `filter` and `extra_filters`. */
  datatype PrefixConfig = PrefixConfig(filter: Option<string>, extraFilters: Option<map<string, string>>)

  /** A Python dict is true exactly when it is not empty. */
  predicate ConfigTruthy(c: PrefixConfig)
  {
    c.filter.Some? || c.extraFilters.Some?
  }

  /** `term.split(":", 1)` when `":"` occurs in `term`: the text before the first colon and
      everything after it. */
  function SplitAtFirstColon(term: string): (r: Option<(string, string)>)
    ensures r.None? <==> !Contains(term, ":")
    ensures r.Some? ==> r.value.0 + ":" + r.value.1 == term
    ensures r.Some? ==> !Contains(r.value.0, ":")
  {
    match FirstIndex(term, ":", 0)
    case None => None
    case Some(j) =>
      assert term[j..j + 1] == ":";
      assert term == term[..j] + term[j..j + 1] + term[j + 1..];
      NoOccurrenceInPrefix(term, ":", j);
      Some((term[..j], term[j + 1..]))
  }

  /** The split is at the first colon only: the search value may itself hold colons. */
  lemma SplitAtFirstColonRoundTrip(prefix: string, search: string)
    requires !Contains(prefix, ":")
    ensures SplitAtFirstColon(prefix + ":" + search) == Some((prefix, search))
  {
    var term := prefix + ":" + search;
    assert OccursAt(term, ":", |prefix|);
    var j := FirstIndex(term, ":", 0).value;
    if j < |prefix| {
      assert term[j] == prefix[j];
      assert OccursAt(prefix, ":", j);
    }
    assert j == |prefix|;
    assert term[..j] == prefix && term[j + 1..] == search;
  }

  /** `search_parser`: the custom filter a `prefix:value` search term selects. */
  function SearchParser(term: string, config: map<string, PrefixConfig>): (r: Result<map<string, string>>)
    ensures !Contains(term, ":") ==> r == Success(map[])
    ensures r.Failure? ==> Contains(term, ":")
  {
    match SplitAtFirstColon(term)
    case None => Success(map[])
    case Some((prefix, search)) =>
      if prefix !in config || !ConfigTruthy(config[prefix]) then Success(map[])
      else
        match config[prefix].filter
        case None => Failure("KeyError: 'filter'")
        case Some(keyword) =>
          var extra := if config[prefix].extraFilters.Some? then config[prefix].extraFilters.value else map[];
          Success(extra[keyword := search])
  }

  /** What a `prefix:search` term yields: nothing for an unknown or empty prefix entry, an error
      for an entry without `filter`, and otherwise the extra filters with the keyword set to the
      search value, the keyword overriding an extra filter of the same name. */
  lemma SearchParserPrefix(prefix: string, search: string, config: map<string, PrefixConfig>)
    requires !Contains(prefix, ":")
    ensures prefix !in config ==> SearchParser(prefix + ":" + search, config) == Success(map[])
    ensures prefix in config && !ConfigTruthy(config[prefix]) ==> SearchParser(prefix + ":" + search, config) == Success(map[])
    ensures prefix in config && config[prefix].extraFilters.Some? && config[prefix].filter.None? ==>
      SearchParser(prefix + ":" + search, config).Failure?
    ensures prefix in config && config[prefix].filter.Some? ==>
      var r := SearchParser(prefix + ":" + search, config);
      var extra := if config[prefix].extraFilters.Some? then config[prefix].extraFilters.value else map[];
      r.Success? && r.value.Keys == extra.Keys + {config[prefix].filter.value}
      && r.value[config[prefix].filter.value] == search
      && (forall k :: k in extra && k != config[prefix].filter.value ==> r.value[k] == extra[k])
  {
    SplitAtFirstColonRoundTrip(prefix, search);
  }

  // ---------------------------------------------------------------- NoPkOrderChangeList

  /** The index of the first occurrence of `x`. */
  function IndexOf(s: seq<string>, x: string): (i: nat)
    requires x in s
    ensures i < |s| && s[i] == x
    ensures forall j :: 0 <= j < i ==> s[j] != x
  {
    if s[0] == x then 0 else 1 + IndexOf(s[1..], x)
  }

  /** `list.remove(x)`: drop the first occurrence of `x`. */
  function RemoveFirst(s: seq<string>, x: string): (r: seq<string>)
    requires x in s
    ensures r == s[..IndexOf(s, x)] + s[IndexOf(s, x) + 1..]
  {
    if s[0] == x then s[1..] else [s[0]] + RemoveFirst(s[1..], x)
  }

  /** `NoPkOrderChangeList.get_ordering`: the admin's extra `-pk` is dropped once custom order
      fields are present. */
  function GetOrdering(orderFields: seq<string>): (r: seq<string>)
    ensures !(|orderFields| > 1 && "-pk" in orderFields) ==> r == orderFields
    ensures |orderFields| > 1 && "-pk" in orderFields ==>
      |r| == |orderFields| - 1 && multiset(r) + multiset{"-pk"} == multiset(orderFields)
    ensures |orderFields| > 1 && "-pk" in orderFields ==>
      exists i :: 0 <= i < |orderFields| && orderFields[i] == "-pk"
        && (forall j :: 0 <= j < i ==> orderFields[j] != "-pk")
        && r == orderFields[..i] + orderFields[i + 1..]
  {
    if |orderFields| > 1 && "-pk" in orderFields then
      RemoveFirstFacts(orderFields, "-pk");
      var i := IndexOf(orderFields, "-pk");
      assert orderFields[i] == "-pk" && (forall j :: 0 <= j < i ==> orderFields[j] != "-pk");
      RemoveFirst(orderFields, "-pk")
    else orderFields
  }

  /** `list.remove` shortens the list by one and removes exactly one `x`. */
  lemma {:induction false} RemoveFirstFacts(s: seq<string>, x: string)
    requires x in s
    ensures |RemoveFirst(s, x)| == |s| - 1
    ensures multiset(RemoveFirst(s, x)) + multiset{x} == multiset(s)
  {
    assert s == [s[0]] + s[1..];
    if s[0] != x {
      RemoveFirstFacts(s[1..], x);
    }
  }

  // ---------------------------------------------------------------- finalized filters

  /** `Q(status=PENDING) | Q(status=STARTED) | Q(status=QUEUED)` of `IsFinalizedJobFilter`. */
  predicate JobNotFinalized(s: JobStatus)
  {
    s == JobPending || s == JobStarted || s == JobQueued
  }

  /** `Q(last_status=PENDING) | Q(last_status=STARTED)` of `IsFinalizedDeltaJobFilter`. */
  predicate DeltaNotFinalized(s: DeltaStatus)
  {
    s == Pending || s == Started
  }

  /** The jobs whose status is (`notFinalized`) or is not (`!notFinalized`) one of the open ones. */
  function JobsWhere(jobs: seq<Job>, notFinalized: bool): (r: seq<Job>)
    ensures |r| <= |jobs|
    ensures forall j :: j in r <==> j in jobs && JobNotFinalized(j.status) == notFinalized
  {
    if jobs == [] then []
    else (if JobNotFinalized(jobs[0].status) == notFinalized then [jobs[0]] else []) + JobsWhere(jobs[1..], notFinalized)
  }

  function DeltasWhere(deltas: seq<Delta>, notFinalized: bool): (r: seq<Delta>)
    ensures |r| <= |deltas|
    ensures forall d :: d in r <==> d in deltas && DeltaNotFinalized(d.lastStatus) == notFinalized
  {
    if deltas == [] then []
    else (if DeltaNotFinalized(deltas[0].lastStatus) == notFinalized then [deltas[0]] else []) + DeltasWhere(deltas[1..], notFinalized)
  }

  /** The two job filters split the table: every row lands in exactly one of them, once. */
  lemma {:induction false} JobFiltersPartition(jobs: seq<Job>)
    ensures multiset(JobsWhere(jobs, true)) + multiset(JobsWhere(jobs, false)) == multiset(jobs)
  {
    if jobs != [] {
      JobFiltersPartition(jobs[1..]);
      var x, rest := jobs[0], jobs[1..];
      assert jobs == [x] + rest;
      if JobNotFinalized(x.status) {
        assert JobsWhere(jobs, true) == [x] + JobsWhere(rest, true);
        assert JobsWhere(jobs, false) == JobsWhere(rest, false);
      } else {
        assert JobsWhere(jobs, true) == JobsWhere(rest, true);
        assert JobsWhere(jobs, false) == [x] + JobsWhere(rest, false);
      }
    }
  }

  lemma {:induction false} DeltaFiltersPartition(deltas: seq<Delta>)
    ensures multiset(DeltasWhere(deltas, true)) + multiset(DeltasWhere(deltas, false)) == multiset(deltas)
  {
    if deltas != [] {
      DeltaFiltersPartition(deltas[1..]);
      var x, rest := deltas[0], deltas[1..];
      assert deltas == [x] + rest;
      if DeltaNotFinalized(x.lastStatus) {
        assert DeltasWhere(deltas, true) == [x] + DeltasWhere(rest, true);
        assert DeltasWhere(deltas, false) == DeltasWhere(rest, false);
      } else {
        assert DeltasWhere(deltas, true) == DeltasWhere(rest, true);
        assert DeltasWhere(deltas, false) == [x] + DeltasWhere(rest, false);
      }
    }
  }

  /** `IsFinalizedJobFilter.queryset`: no choice keeps every job; an unknown choice raises. */
  function IsFinalizedJobFilter(value: Option<string>, jobs: seq<Job>): (r: Result<seq<Job>>)
    ensures value.None? ==> r == Success(jobs)
    ensures r.Failure? <==> value.Some? && value.value != "not finalized" && value.value != "finalized"
    ensures value == Some("not finalized") ==> r.Success? && forall j :: j in r.value <==> j in jobs && JobNotFinalized(j.status)
    ensures value == Some("finalized") ==> r.Success? && forall j :: j in r.value <==> j in jobs && !JobNotFinalized(j.status)
  {
    if value.None? then Success(jobs)
    else if value.value == "not finalized" then Success(JobsWhere(jobs, true))
    else if value.value == "finalized" then Success(JobsWhere(jobs, false))
    else Failure("Unknown filter: " + value.value + FilterChoicesHint)
  }

  /** `IsFinalizedDeltaJobFilter.queryset`, on `last_status`. */
  function IsFinalizedDeltaJobFilter(value: Option<string>, deltas: seq<Delta>): (r: Result<seq<Delta>>)
    ensures value.None? ==> r == Success(deltas)
    ensures r.Failure? <==> value.Some? && value.value != "not finalized" && value.value != "finalized"
    ensures value == Some("not finalized") ==> r.Success? && forall d :: d in r.value <==> d in deltas && DeltaNotFinalized(d.lastStatus)
    ensures value == Some("finalized") ==> r.Success? && forall d :: d in r.value <==> d in deltas && !DeltaNotFinalized(d.lastStatus)
  {
    if value.None? then Success(deltas)
    else if value.value == "not finalized" then Success(DeltasWhere(deltas, true))
    else if value.value == "finalized" then Success(DeltasWhere(deltas, false))
    else Failure("Unknown filter: " + value.value + FilterChoicesHint)
  }

  /** The "finalized" and "not finalized" choices together list every job exactly once. */
  lemma JobFilterChoicesPartition(jobs: seq<Job>)
    ensures IsFinalizedJobFilter(Some("not finalized"), jobs).Success?
    ensures IsFinalizedJobFilter(Some("finalized"), jobs).Success?
    ensures multiset(IsFinalizedJobFilter(Some("not finalized"), jobs).value)
      + multiset(IsFinalizedJobFilter(Some("finalized"), jobs).value) == multiset(jobs)
  {
    JobFiltersPartition(jobs);
  }

  lemma DeltaFilterChoicesPartition(deltas: seq<Delta>)
    ensures IsFinalizedDeltaJobFilter(Some("not finalized"), deltas).Success?
    ensures IsFinalizedDeltaJobFilter(Some("finalized"), deltas).Success?
    ensures multiset(IsFinalizedDeltaJobFilter(Some("not finalized"), deltas).value)
      + multiset(IsFinalizedDeltaJobFilter(Some("finalized"), deltas).value) == multiset(deltas)
  {
    DeltaFiltersPartition(deltas);
  }

  // ---------------------------------------------------------------- PrettyJSONWidget

  /** `min(max(x, lo), hi)`. */
  function Clamp(x: int, lo: int, hi: int): (r: int)
    requires lo <= hi
    ensures lo <= r <= hi
    ensures lo <= x <= hi ==> r == x
    ensures x < lo ==> r == lo
    ensures x > hi ==> r == hi
  {
    if x < lo then lo else if x > hi then hi else x
  }

  /** `[len(r) for r in text.split("\n")]`. */
  function LineLengths(lines: seq<string>): (r: seq<nat>)
    ensures |r| == |lines|
    ensures forall i :: 0 <= i < |lines| ==> r[i] == |lines[i]|
  {
    if lines == [] then [] else [|lines[0]|] + LineLengths(lines[1..])
  }

  /** `max(...)` of a non-empty list. */
  function MaxOf(xs: seq<nat>): (m: nat)
    requires |xs| >= 1
    ensures m in xs
    ensures forall i :: 0 <= i < |xs| ==> xs[i] <= m
  {
    if |xs| == 1 then xs[0]
    else
      var rest := MaxOf(xs[1..]);
      if xs[0] >= rest then xs[0] else rest
  }

  /** The textarea's `rows`: two more than the lines, kept within 10..30. */
  function TextareaRows(text: string): (rows: int)
    ensures 10 <= rows <= 30
    ensures 10 <= |SplitOn(text, "\n")| + 2 <= 30 ==> rows == |SplitOn(text, "\n")| + 2
    ensures |SplitOn(text, "\n")| + 2 < 10 ==> rows == 10
    ensures |SplitOn(text, "\n")| + 2 > 30 ==> rows == 30
  {
    Clamp(|LineLengths(SplitOn(text, "\n"))| + 2, 10, 30)
  }

  /** The textarea's `cols`: two more than the longest line, kept within 40..120; so every line
      fits whenever the longest one does. */
  function TextareaCols(text: string): (cols: int)
    ensures 40 <= cols <= 120
    ensures forall line :: line in SplitOn(text, "\n") && |line| + 2 <= 120 ==> |line| + 2 <= cols
    ensures 40 < cols < 120 ==> exists line :: line in SplitOn(text, "\n") && |line| + 2 == cols
    ensures cols == 120 ==> exists line :: line in SplitOn(text, "\n") && |line| + 2 >= 120
    ensures cols == 120 || forall line :: line in SplitOn(text, "\n") ==> |line| + 2 <= cols
  {
    LinesWidth(SplitOn(text, "\n"))
  }

  /** The width of a non-empty list of lines: the longest one plus two, kept within 40..120. */
  function LinesWidth(lines: seq<string>): (cols: int)
    requires |lines| >= 1
    ensures 40 <= cols <= 120
    ensures forall line :: line in lines && |line| + 2 <= 120 ==> |line| + 2 <= cols
    ensures 40 < cols < 120 ==> exists line :: line in lines && |line| + 2 == cols
    ensures cols == 120 ==> exists line :: line in lines && |line| + 2 >= 120
    ensures cols == 120 || forall line :: line in lines ==> |line| + 2 <= cols
  {
    var lens := LineLengths(lines);
    var m := MaxOf(lens);
    assert forall line :: line in lines ==> |line| <= m by {
      forall line | line in lines ensures |line| <= m {
        var i :| 0 <= i < |lines| && lines[i] == line;
        assert lens[i] <= m;
      }
    }
    var k :| 0 <= k < |lens| && lens[k] == m;
    assert lines[k] in lines && |lines[k]| == m;
    Clamp(m + 2, 40, 120)
  }

  /** The JSON textarea: `format_value` sizes it to the formatted text. The text comes in already
      pretty-printed (`json.dumps(json.loads(value), indent=2, sort_keys=True)`). */
  class PrettyJsonWidget {
    var attrs: map<string, int>

    constructor(attrs: map<string, int>)
      ensures this.attrs == attrs
    {
      this.attrs := attrs;
    }

    method FormatValue(text: string) returns (r: string)
      modifies this
      ensures r == text
      ensures attrs == old(attrs)["rows" := TextareaRows(text)]["cols" := TextareaCols(text)]
      ensures 10 <= attrs["rows"] <= 30 && 40 <= attrs["cols"] <= 120
    {
      var lens := LineLengths(SplitOn(text, "\n"));
      attrs := attrs["rows" := Clamp(|lens| + 2, 10, 30)];
      attrs := attrs["cols" := Clamp(MaxOf(lens) + 2, 40, 120)];
      r := text;
    }
  }

  // ---------------------------------------------------------------- DeltaAdmin.geom_truncated

  /** `geom_truncated`: `"-"` without a geometry, otherwise the first 70 characters of its text
      and `" ..."`. */
  function GeomTruncated(geom: Option<string>): (r: string)
    ensures geom.None? <==> r == "-"
    ensures geom.Some? ==> 4 <= |r| <= 74 && r[|r| - 4..] == " ..."
    ensures geom.Some? ==> StartsWith(geom.value, r[..|r| - 4])
    ensures geom.Some? ==> (|r| == 74 || r[..|r| - 4] == geom.value)
  {
    match geom
    case None => "-"
    case Some(text) =>
      var head := if |text| <= 70 then text else text[..70];
      assert text[..|head|] == head;
      head + " ..."
  }

  // ---------------------------------------------------------------- TeamAdmin.save_model

  /** The username `TeamAdmin.save_model` stores: `@{org}/` is put in front unless the name
      already starts with `@`. */
  function SavedTeamUsername(username: string, organizationUsername: string): (r: string)
    ensures StartsWith(r, "@")
    ensures StartsWith(username, "@") ==> r == username
    ensures !StartsWith(username, "@") ==> r == TeamPrefix(organizationUsername) + username
  {
    if StartsWith(username, "@") then username else TeamPrefix(organizationUsername) + username
  }

  /** Saving twice stores the same name as saving once. */
  lemma SavedTeamUsernameIdempotent(username: string, organizationUsername: string)
    ensures SavedTeamUsername(SavedTeamUsername(username, organizationUsername), organizationUsername)
      == SavedTeamUsername(username, organizationUsername)
  {
  }

  /** `teamname` gives back the name typed in the admin, when that name neither starts with `@`
      nor holds the organization prefix itself. */
  lemma TeamNameRecoversTypedName(username: string, organizationUsername: string)
    requires !StartsWith(username, "@")
    requires !Contains(username, TeamPrefix(organizationUsername))
    ensures TeamName(SavedTeamUsername(username, organizationUsername), organizationUsername) == username
  {
    var p := TeamPrefix(organizationUsername);
    var s := p + username;
    assert s[..|p|] == p && s[|p|..] == username;
    ReplaceAllAbsent(username, p, "");
  }

  /** The team being saved from the admin form. */
  class TeamForm {
    var username: string
    const organizationUsername: string

    constructor(username: string, organizationUsername: string)
      ensures this.username == username && this.organizationUsername == organizationUsername
    {
      this.username := username;
      this.organizationUsername := organizationUsername;
    }

    /** `TeamAdmin.save_model`: rewrites `obj.username` in place before saving. */
    method SaveModel()
      modifies this
      ensures username == SavedTeamUsername(old(username), organizationUsername)
    {
      if !StartsWith(username, "@") {
        username := TeamPrefix(organizationUsername) + username;
      }
    }
  }
}
