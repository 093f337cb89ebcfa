/**
 * The changelog generator (generate_changelog.py). Release tags follow
 * section 2 of Semantic Versioning 2.0.0 with a `v` prefix (leading zeros are
 * accepted); commit subjects follow the Specification section of Conventional
 * Commits 1.0.0 (`type(scope)!: description` and a `BREAKING CHANGE:` footer).
 * Only major and minor releases (patch 0) and only `feat`/`fix` commits are
 * documented. Git is an input: the tag list, the commit dates and the output
 * of `git log` for a revision range are parameters.
 */
module Changelog {
  import opened Wrappers
  import opened Text

  // ---------------------------------------------------------------------------
  // Release tags
  // ---------------------------------------------------------------------------

  /** `(major, minor, patch)`, compared as a Python tuple. */
  datatype Version = Version(major: nat, minor: nat, patch: nat)

  /** Tuple order: `a < b`. */
  predicate Below(a: Version, b: Version)
  {
    a.major < b.major
    || (a.major == b.major && (a.minor < b.minor || (a.minor == b.minor && a.patch < b.patch)))
  }

  /** The regular expression's `$` also matches before one newline that ends the text. */
  function DropFinalNewline(s: string): (r: string)
    ensures r == s || s == r + "\n"
  {
    if |s| > 0 && s[|s| - 1] == '\n' then s[..|s| - 1] else s
  }

  /** `^v(\d+)\.(\d+)\.(\d+)$`, each group read as a decimal integer. */
  function ParseSemverTag(tag: string): Option<Version>
  {
    if |tag| == 0 || tag[0] != 'v' then None else ParseDotted(DropFinalNewline(tag[1..]))
  }

  /** Three digit runs separated by dots. */
  function ParseDotted(x: string): Option<Version>
  {
    var parts := Split(x, '.');
    if |parts| == 3 && IsDigits(parts[0]) && IsDigits(parts[1]) && IsDigits(parts[2]) then
      Some(Version(DigitsValue(parts[0]), DigitsValue(parts[1]), DigitsValue(parts[2])))
    else None
  }

  /** `tag` is `v<a>.<b>.<c>`, optionally followed by one newline, with digit runs `a`, `b`, `c`. */
  predicate SemverShaped(tag: string, a: string, b: string, c: string)
  {
    IsDigits(a) && IsDigits(b) && IsDigits(c)
    && (tag == "v" + a + "." + b + "." + c || tag == "v" + a + "." + b + "." + c + "\n")
  }

  lemma SplitThree(a: string, b: string, c: string)
    requires '.' !in a && '.' !in b && '.' !in c
    ensures Split(a + "." + b + "." + c, '.') == [a, b, c]
  {
    var bc := b + ['.'] + c;
    assert a + "." + b + "." + c == a + ['.'] + bc;
    SplitAfter(a, '.', bc);
    SplitAfter(b, '.', c);
    SplitWithoutSep(c, '.');
  }

  lemma DottedOfRuns(a: string, b: string, c: string)
    requires IsDigits(a) && IsDigits(b) && IsDigits(c)
    ensures ParseDotted(a + "." + b + "." + c) == Some(Version(DigitsValue(a), DigitsValue(b), DigitsValue(c)))
  {
    assert '.' !in a && '.' !in b && '.' !in c;
    SplitThree(a, b, c);
  }

  lemma BodyOfShape(tag: string, a: string, b: string, c: string)
    requires SemverShaped(tag, a, b, c)
    ensures |tag| > 0 && tag[0] == 'v' && DropFinalNewline(tag[1..]) == a + "." + b + "." + c
  {
    var body := a + "." + b + "." + c;
    assert tag[1..] == body || tag[1..] == body + "\n";
    assert body[|body| - 1] == c[|c| - 1];
    assert IsDigit(body[|body| - 1]);
  }

  /** A tag of the semantic-version shape yields the values of its three digit runs. */
  lemma SemverOfShape(tag: string, a: string, b: string, c: string)
    requires SemverShaped(tag, a, b, c)
    ensures ParseSemverTag(tag) == Some(Version(DigitsValue(a), DigitsValue(b), DigitsValue(c)))
  {
    BodyOfShape(tag, a, b, c);
    DottedOfRuns(a, b, c);
  }

  lemma JoinThree(parts: seq<string>)
    requires |parts| == 3
    ensures Join(parts, ['.']) == parts[0] + "." + parts[1] + "." + parts[2]
  {
    var tail := parts[1..];
    assert tail[1..] == [parts[2]];
    assert Join(tail, ['.']) == parts[1] + ['.'] + parts[2];
    assert Join(parts, ['.']) == parts[0] + ['.'] + (parts[1] + ['.'] + parts[2]);
  }

  lemma ShapeOfDotted(x: string)
    requires ParseDotted(x).Some?
    ensures var parts := Split(x, '.');
      |parts| == 3 && IsDigits(parts[0]) && IsDigits(parts[1]) && IsDigits(parts[2])
      && x == parts[0] + "." + parts[1] + "." + parts[2]
  {
    JoinSplit(x, '.');
    JoinThree(Split(x, '.'));
  }

  lemma ShapeFromBody(tag: string, a: string, b: string, c: string)
    requires IsDigits(a) && IsDigits(b) && IsDigits(c)
    requires |tag| > 0 && tag[0] == 'v'
    requires tag[1..] == a + "." + b + "." + c || tag[1..] == a + "." + b + "." + c + "\n"
    ensures SemverShaped(tag, a, b, c)
  {
    assert tag == "v" + tag[1..];
  }

  /** Every tag the parser accepts has the semantic-version shape. */
  lemma ShapeOfSemver(tag: string)
    requires ParseSemverTag(tag).Some?
    ensures exists a, b, c :: SemverShaped(tag, a, b, c)
  {
    var x := DropFinalNewline(tag[1..]);
    ShapeOfDotted(x);
    var parts := Split(x, '.');
    ShapeFromBody(tag, parts[0], parts[1], parts[2]);
  }

  /** `parse_semver_tag` answers exactly for the tags matching the pattern. */
  lemma SemverMatches(tag: string)
    ensures ParseSemverTag(tag).Some? <==> exists a, b, c :: SemverShaped(tag, a, b, c)
  {
    if ParseSemverTag(tag).Some? {
      ShapeOfSemver(tag);
    }
    if exists a, b, c :: SemverShaped(tag, a, b, c) {
      var a, b, c :| SemverShaped(tag, a, b, c);
      SemverOfShape(tag, a, b, c);
    }
  }

  /** The canonical tag of a version. */
  function TagOf(v: Version): string
  {
    "v" + NatToString(v.major) + "." + NatToString(v.minor) + "." + NatToString(v.patch)
  }

  /** Parsing the canonical tag gives the version back. */
  lemma TagRoundTrip(v: Version)
    ensures ParseSemverTag(TagOf(v)) == Some(v)
  {
    var a, b, c := NatToString(v.major), NatToString(v.minor), NatToString(v.patch);
    SemverOfShape(TagOf(v), a, b, c);
    NatToStringValue(v.major);
    NatToStringValue(v.minor);
    NatToStringValue(v.patch);
  }

  datatype TaggedVersion = TaggedVersion(tag: string, version: Version)

  /** What one tag contributes: itself when it parses and its patch number is 0. */
  function Kept(tag: string): seq<TaggedVersion>
  {
    match ParseSemverTag(tag)
    case Some(v) => if v.patch == 0 then [TaggedVersion(tag, v)] else []
    case None => []
  }

  /** The major and minor releases among `tags`, in the order given. */
  function MinorReleases(tags: seq<string>): seq<TaggedVersion>
  {
    if tags == [] then [] else MinorReleases(tags[..|tags| - 1]) + Kept(tags[|tags| - 1])
  }

  /** `discover_release_tags` over the lines of `git tag --sort=creatordate`. */
  method DiscoverReleaseTags(tags: seq<string>) returns (releases: seq<TaggedVersion>)
    ensures releases == MinorReleases(tags)
  {
    releases := [];
    for i := 0 to |tags|
      invariant releases == MinorReleases(tags[..i])
    {
      assert tags[..i + 1][..i] == tags[..i];
      var version := ParseSemverTag(tags[i]);
      if version.None? {
        continue;
      }
      if version.value.patch != 0 {
        continue;
      }
      releases := releases + [TaggedVersion(tags[i], version.value)];
    }
    assert tags[..|tags|] == tags;
  }

  /** The filter works tag by tag: it keeps the input order. */
  lemma {:induction false} MinorReleasesAppend(a: seq<string>, b: seq<string>)
    ensures MinorReleases(a + b) == MinorReleases(a) + MinorReleases(b)
    decreases |b|
  {
    if b == [] {
      assert a + b == a;
    } else {
      var n := |b| - 1;
      assert (a + b)[..|a + b| - 1] == a + b[..n];
      assert (a + b)[|a + b| - 1] == b[n];
      MinorReleasesAppend(a, b[..n]);
      Associative(MinorReleases(a), MinorReleases(b[..n]), Kept(b[n]));
    }
  }

  /** Only parseable patch-0 tags are kept, and every one of them is. */
  lemma {:induction false} MinorReleasesMembers(tags: seq<string>)
    ensures forall r | r in MinorReleases(tags) ::
      r.tag in tags && ParseSemverTag(r.tag) == Some(r.version) && r.version.patch == 0
    ensures forall t | t in tags && ParseSemverTag(t).Some? && ParseSemverTag(t).value.patch == 0 ::
      TaggedVersion(t, ParseSemverTag(t).value) in MinorReleases(tags)
  {
    if tags != [] {
      var p := tags[..|tags| - 1];
      MinorReleasesMembers(p);
      assert tags == p + [tags[|tags| - 1]];
    }
  }

  // ---------------------------------------------------------------------------
  // Commits
  // ---------------------------------------------------------------------------

  /** The separators of `--pretty=format:%H%x1f%s%x1f%b%x1e`. */
  const RecordSep: char := '\U{1e}'
  const FieldSep: char := '\U{1f}'

  datatype CommitEntry = CommitEntry(kind: string, description: string)

  /** The `{"feat": [...], "fix": [...]}` dictionary: both keys are always present. */
  datatype Commits = Commits(feat: seq<CommitEntry>, fix: seq<CommitEntry>)

  /** The groups of a matched subject: type, scope, `!` and description. */
  datatype Subject = Subject(kind: string, scope: Option<string>, breaking: bool, description: string)

  /**
   * `^(feat|fix)(?:\(([^)]+)\))?(!)?:\s*(.+)$` applied to `subject.strip()`.
   * On stripped text the description group is everything after the colon and
   * the whitespace that follows it, and it matches iff it is non-empty and on
   * one line.
   */
  function MatchSubject(subject: string): Option<Subject>
  {
    var s := Strip(subject);
    if StartsWith(s, "feat") then AfterType("feat", s[4..])
    else if StartsWith(s, "fix") then AfterType("fix", s[3..])
    else None
  }

  /** The optional `(scope)`: a parenthesis, at least one non-`)` character and `)`. */
  function AfterType(kind: string, rest: string): Option<Subject>
  {
    if |rest| > 0 && rest[0] == '(' then
      match Find(rest, ')')
      case Some(j) => if j >= 2 then AfterScope(kind, Some(rest[1..j]), rest[j + 1..]) else None
      case None => None
    else AfterScope(kind, None, rest)
  }

  /** The optional `!`, the colon and the description. */
  function AfterScope(kind: string, scope: Option<string>, rest: string): Option<Subject>
  {
    var breaking := |rest| > 0 && rest[0] == '!';
    var tail := if breaking then rest[1..] else rest;
    if |tail| > 0 && tail[0] == ':' then
      var d := LTrim(tail[1..]);
      if d != [] && '\n' !in d then Some(Subject(kind, scope, breaking, d)) else None
    else None
  }

  /** A Conventional Commits subject line built from its parts. */
  function SubjectText(kind: string, scope: Option<string>, breaking: bool, d: string): string
  {
    kind + (if scope.Some? then "(" + scope.value + ")" else "") + (if breaking then "!" else "") + ": " + d
  }

  lemma LTrimAfterColon(d: string)
    requires d != [] && !IsSpace(d[0])
    ensures LTrim(" " + d) == d
  {
    LTrimSpace(d);
  }

  lemma ColonTail(breaking: bool, d: string, rest: string)
    requires rest == (if breaking then "!" else "") + ": " + d
    ensures breaking == (|rest| > 0 && rest[0] == '!')
    ensures (if breaking then rest[1..] else rest) == ": " + d
  {
    if breaking {
      assert rest == "!" + (": " + d);
    }
  }

  lemma AfterScopeOf(kind: string, scope: Option<string>, breaking: bool, d: string, rest: string)
    requires d != [] && !IsSpace(d[0]) && '\n' !in d
    requires rest == (if breaking then "!" else "") + ": " + d
    ensures AfterScope(kind, scope, rest) == Some(Subject(kind, scope, breaking, d))
  {
    ColonTail(breaking, d, rest);
    ColonThen(d, ": " + d);
  }

  lemma ColonThen(d: string, tail: string)
    requires d != [] && !IsSpace(d[0])
    requires tail == ": " + d
    ensures |tail| > 0 && tail[0] == ':' && LTrim(tail[1..]) == d
  {
    assert tail[1..] == " " + d;
    LTrimAfterColon(d);
  }

  lemma ScopeClose(scope: string, after: string, rest: string)
    requires scope != [] && ')' !in scope
    requires rest == "(" + scope + ")" + after
    ensures |rest| > 0 && rest[0] == '(' && Find(rest, ')') == Some(|scope| + 1)
    ensures rest[1..|scope| + 1] == scope && rest[|scope| + 2..] == after
  {
    var open := "(" + scope;
    assert ')' !in open;
    assert rest == open + [')'] + after;
    FindAfter(open, ')', after);
    assert rest[1..|open|] == scope;
    assert rest[|open| + 1..] == after;
  }

  lemma AfterTypeScoped(kind: string, scope: string, after: string, rest: string)
    requires scope != [] && ')' !in scope
    requires rest == "(" + scope + ")" + after
    ensures AfterType(kind, rest) == AfterScope(kind, Some(scope), after)
  {
    ScopeClose(scope, after, rest);
  }

  lemma AfterTypeUnscoped(kind: string, after: string)
    requires |after| > 0 && (after[0] == '!' || after[0] == ':')
    ensures AfterType(kind, after) == AfterScope(kind, None, after)
  {
  }

  lemma AfterTypeOf(kind: string, scope: Option<string>, breaking: bool, d: string, after: string, rest: string)
    requires scope.Some? ==> scope.value != [] && ')' !in scope.value
    requires d != [] && !IsSpace(d[0]) && '\n' !in d
    requires after == (if breaking then "!" else "") + ": " + d
    requires scope.Some? ==> rest == "(" + scope.value + ")" + after
    requires scope.None? ==> rest == after
    ensures AfterType(kind, rest) == Some(Subject(kind, scope, breaking, d))
  {
    AfterScopeOf(kind, scope, breaking, d, after);
    if scope.Some? {
      AfterTypeScoped(kind, scope.value, after, rest);
    } else {
      ColonTail(breaking, d, after);
      AfterTypeUnscoped(kind, after);
    }
  }

  lemma MatchSubjectOf(kind: string, rest: string, s: string)
    requires kind == "feat" || kind == "fix"
    requires s == kind + rest && |rest| > 0 && !IsSpace(rest[|rest| - 1])
    ensures MatchSubject(s) == AfterType(kind, rest)
  {
    assert s[0] == 'f' && s[|s| - 1] == rest[|rest| - 1];
    StripOfUnspaced(s);
    assert s[..|kind|] == kind && s[|kind|..] == rest;
    if kind == "fix" {
      assert s[1] == 'i';
      assert !StartsWith(s, "feat");
    }
  }

  /** Matching a subject built from its parts gives the parts back. */
  lemma SubjectRoundTrip(kind: string, scope: Option<string>, breaking: bool, d: string)
    requires kind == "feat" || kind == "fix"
    requires scope.Some? ==> scope.value != [] && ')' !in scope.value
    requires d != [] && !IsSpace(d[0]) && !IsSpace(d[|d| - 1]) && '\n' !in d
    ensures MatchSubject(SubjectText(kind, scope, breaking, d)) == Some(Subject(kind, scope, breaking, d))
  {
    var after := (if breaking then "!" else "") + ": " + d;
    var rest := (if scope.Some? then "(" + scope.value + ")" else "") + after;
    assert SubjectText(kind, scope, breaking, d) == kind + rest;
    assert rest[|rest| - 1] == d[|d| - 1];
    MatchSubjectOf(kind, rest, kind + rest);
    AfterTypeOf(kind, scope, breaking, d, after, rest);
  }

  const BreakingMarker := "BREAKING CHANGE:"

  /** Text up to the first newline. */
  function LineHead(s: string): (r: string)
    ensures '\n' !in r && StartsWith(s, r)
  {
    match Find(s, '\n')
    case Some(k) => s[..k]
    case None => s
  }

  /**
   * `BREAKING CHANGE:\s*(.+)$` anchored where `s` begins, giving the stripped
   * group. When only whitespace follows the colon the pattern still matches,
   * with a blank group, as long as some of it is not a newline.
   */
  function BreakingAt(s: string): Option<string>
  {
    if !StartsWith(s, BreakingMarker) then None
    else
      var rest := s[|BreakingMarker|..];
      var d := LTrim(rest);
      if d != [] then Some(Strip(LineHead(d)))
      else if forall i :: 0 <= i < |rest| ==> rest[i] == '\n' then None
      else Some("")
  }

  /** What the multiline pattern gives at each position: a match is tried only at line starts. */
  function LineMatches(body: string): (r: seq<Option<string>>)
    ensures |r| == |body|
  {
    seq(|body|, p requires 0 <= p < |body| => if p == 0 || body[p - 1] == '\n' then BreakingAt(body[p..]) else None)
  }

  /** The leftmost match. */
  function FirstMatch(xs: seq<Option<string>>): Option<string>
  {
    if xs == [] then None else if xs[0].Some? then xs[0] else FirstMatch(xs[1..])
  }

  /** `BREAKING_RE.search(body)`, giving the stripped group of the leftmost match. */
  function BreakingSearch(body: string): Option<string>
  {
    FirstMatch(LineMatches(body))
  }

  lemma {:induction false} FirstMatchAt(xs: seq<Option<string>>, p: nat)
    requires p < |xs| && xs[p].Some?
    requires forall i | 0 <= i < p :: xs[i].None?
    ensures FirstMatch(xs) == xs[p]
  {
    if p > 0 {
      FirstMatchAt(xs[1..], p - 1);
    }
  }

  /**
   * A footer line `BREAKING CHANGE: <details>` (ending the body or followed by
   * a newline), with no earlier line matching, yields its details, stripped.
   */
  lemma BreakingFooter(body: string, p: nat, details: string, tail: string)
    requires p <= |body| && (p == 0 || body[p - 1] == '\n')
    requires forall q | 0 <= q < p :: LineMatches(body)[q].None?
    requires details != [] && !IsSpace(details[0]) && '\n' !in details
    requires tail == [] || tail[0] == '\n'
    requires body[p..] == BreakingMarker + " " + details + tail
    ensures BreakingSearch(body) == Some(Strip(details))
  {
    var ms := LineMatches(body);
    BreakingAtFooter(body[p..], details, tail);
    assert ms[p] == BreakingAt(body[p..]);
    FirstMatchAt(ms, p);
  }

  lemma BreakingAtFooter(s: string, details: string, tail: string)
    requires details != [] && !IsSpace(details[0]) && '\n' !in details
    requires tail == [] || tail[0] == '\n'
    requires s == BreakingMarker + " " + details + tail
    ensures BreakingAt(s) == Some(Strip(details))
  {
    var rest := " " + details + tail;
    assert s[..|BreakingMarker|] == BreakingMarker && s[|BreakingMarker|..] == rest;
    BreakingAtDetails(rest, details, tail);
  }

  lemma BreakingAtDetails(rest: string, details: string, tail: string)
    requires details != [] && !IsSpace(details[0]) && '\n' !in details
    requires tail == [] || tail[0] == '\n'
    requires rest == " " + details + tail
    ensures LTrim(rest) == details + tail && LineHead(details + tail) == details
  {
    LTrimAfterColon(details + tail);
    assert rest == " " + (details + tail);
    LineHeadOf(details, tail);
  }

  lemma LineHeadOf(details: string, tail: string)
    requires '\n' !in details && (tail == [] || tail[0] == '\n')
    ensures LineHead(details + tail) == details
  {
    if tail == [] {
      assert details + tail == details;
    } else {
      assert details + tail == details + ['\n'] + tail[1..];
      FindAfter(details, '\n', tail[1..]);
    }
  }

  const BreakingNote := " \U{26a0}\U{fe0f} BREAKING CHANGE"
  const DetailsDash := " \U{2014} "

  /**
   * The changelog text of a matched commit: `scope: description` when there
   * is a scope, then the breaking-change note when the subject has `!` or the
   * body has a `BREAKING CHANGE:` footer, then the footer's details if any.
   */
  function Describe(subject: Subject, details: Option<string>): string
  {
    var scoped := Scoped(subject);
    if !(subject.breaking || details.Some?) then scoped
    else if details.Some? && details.value != [] then scoped + BreakingNote + DetailsDash + details.value
    else scoped + BreakingNote
  }

  /** The description with its scope in front, when the subject has one. */
  function Scoped(subject: Subject): string
  {
    var d := Strip(subject.description);
    if subject.scope.Some? && subject.scope.value != [] then subject.scope.value + ": " + d else d
  }

  lemma Affixes(a: string, b: string)
    ensures StartsWith(a + b, a) && EndsWith(a + b, b)
  {
    assert (a + b)[..|a|] == a;
    assert (a + b)[|a + b| - |b|..] == b;
  }

  /**
   * How the description is assembled: it starts with `scope: description`
   * (or the description alone), is exactly that when nothing is breaking,
   * and otherwise ends with the breaking-change note and the footer's details.
   */
  lemma DescriptionFormat(subject: Subject, details: Option<string>)
    ensures StartsWith(Describe(subject, details), Scoped(subject))
    ensures subject.scope.Some? && subject.scope.value != [] ==>
      Scoped(subject) == subject.scope.value + ": " + Strip(subject.description)
    ensures (subject.scope.None? || subject.scope.value == []) ==> Scoped(subject) == Strip(subject.description)
    ensures !subject.breaking && details.None? ==> Describe(subject, details) == Scoped(subject)
    ensures details.Some? && details.value != [] ==>
      EndsWith(Describe(subject, details), BreakingNote + DetailsDash + details.value)
    ensures (subject.breaking || details.Some?) && (details.None? || details.value == []) ==>
      EndsWith(Describe(subject, details), BreakingNote)
  {
    var scoped := Scoped(subject);
    if !(subject.breaking || details.Some?) {
      Affixes(scoped, []);
      assert scoped + [] == scoped;
    } else if details.Some? && details.value != [] {
      var note := BreakingNote + DetailsDash + details.value;
      assert scoped + BreakingNote + DetailsDash + details.value == scoped + note;
      Affixes(scoped, note);
    } else {
      Affixes(scoped, BreakingNote);
    }
  }

  /**
   * One `%H%x1f%s%x1f%b` record: blank records, records with fewer than three
   * fields and subjects that are not `feat`/`fix` give nothing.
   */
  function RecordEntry(record: string): Option<CommitEntry>
  {
    if Strip(record) == [] then None
    else
      var fields := Split(record, FieldSep);
      if |fields| < 3 then None
      else match MatchSubject(fields[1])
        case None => None
        case Some(subject) =>
          var details := if fields[2] != [] then BreakingSearch(fields[2]) else None;
          Some(CommitEntry(subject.kind, Describe(subject, details)))
  }

  /** `commits.setdefault(type, []).append(entry)`. */
  function AddEntry(commits: Commits, entry: CommitEntry): Commits
  {
    if entry.kind == "feat" then commits.(feat := commits.feat + [entry])
    else commits.(fix := commits.fix + [entry])
  }

  /** The entries of the records, in log order. */
  function Entries(records: seq<string>): (r: seq<Option<CommitEntry>>)
    ensures |r| == |records|
    ensures forall i :: 0 <= i < |records| ==> r[i] == RecordEntry(records[i])
  {
    seq(|records|, i requires 0 <= i < |records| => RecordEntry(records[i]))
  }

  /** The two groups the entries make, each in the order given. */
  function Gather(entries: seq<Option<CommitEntry>>): Commits
  {
    if entries == [] then Commits([], [])
    else
      var prior := Gather(entries[..|entries| - 1]);
      match entries[|entries| - 1]
      case None => prior
      case Some(e) => AddEntry(prior, e)
  }

  function CommitsOf(records: seq<string>): Commits
  {
    Gather(Entries(records))
  }

  /** What `collect_commits` returns for the (already stripped) log text. */
  function CollectedCommits(rawLog: string): Commits
  {
    if rawLog == [] then Commits([], []) else CommitsOf(Split(rawLog, RecordSep))
  }

  /** `collect_commits`, given the text `git log` produced for the range. */
  method CollectCommits(rawLog: string) returns (commits: Commits)
    ensures commits == CollectedCommits(rawLog)
  {
    commits := Commits([], []);
    if rawLog == [] {
      return;
    }
    var records := Split(rawLog, RecordSep);
    ghost var entries := Entries(records);
    for i := 0 to |records|
      invariant commits == Gather(entries[..i])
    {
      assert entries[..i + 1][..i] == entries[..i];
      var entry := RecordEntry(records[i]);
      if entry.None? {
        continue;
      }
      commits := AddEntry(commits, entry.value);
    }
    assert entries[..|records|] == entries;
  }

  lemma MatchedKind(subject: string)
    requires MatchSubject(subject).Some?
    ensures MatchSubject(subject).value.kind == "feat" || MatchSubject(subject).value.kind == "fix"
  {
  }

  /** What a record gives: nothing for the skipped records, otherwise a `feat` or `fix` entry with the described subject. */
  lemma RecordSkips(record: string)
    ensures Strip(record) == [] ==> RecordEntry(record).None?
    ensures |Split(record, FieldSep)| < 3 ==> RecordEntry(record).None?
    ensures Strip(record) != [] && |Split(record, FieldSep)| >= 3 ==>
      var fields := Split(record, FieldSep);
      match MatchSubject(fields[1])
      case None => RecordEntry(record).None?
      case Some(subject) =>
        && RecordEntry(record).Some?
        && RecordEntry(record).value.kind == subject.kind
        && (subject.kind == "feat" || subject.kind == "fix")
        && RecordEntry(record).value.description
             == Describe(subject, if fields[2] != [] then BreakingSearch(fields[2]) else None)
  {
    if Strip(record) != [] && |Split(record, FieldSep)| >= 3 {
      var fields := Split(record, FieldSep);
      if MatchSubject(fields[1]).Some? {
        MatchedKind(fields[1]);
      }
    }
  }

  /** Both groups hold only their own type. */
  lemma {:induction false} GatherByKind(entries: seq<Option<CommitEntry>>)
    requires forall i | 0 <= i < |entries| && entries[i].Some? :: entries[i].value.kind in {"feat", "fix"}
    ensures forall e | e in Gather(entries).feat :: e.kind == "feat"
    ensures forall e | e in Gather(entries).fix :: e.kind == "fix"
  {
    if entries != [] {
      GatherByKind(entries[..|entries| - 1]);
    }
  }

  lemma GroupsByKind(records: seq<string>)
    ensures forall e | e in CommitsOf(records).feat :: e.kind == "feat"
    ensures forall e | e in CommitsOf(records).fix :: e.kind == "fix"
  {
    var entries := Entries(records);
    forall i | 0 <= i < |entries| && entries[i].Some?
      ensures entries[i].value.kind in {"feat", "fix"}
    {
      RecordSkips(records[i]);
    }
    GatherByKind(entries);
  }

  /** The groups of two runs of records, one after the other. */
  function Concat(a: Commits, b: Commits): Commits
  {
    Commits(a.feat + b.feat, a.fix + b.fix)
  }

  lemma {:induction false} GatherAppend(a: seq<Option<CommitEntry>>, b: seq<Option<CommitEntry>>)
    ensures Gather(a + b) == Concat(Gather(a), Gather(b))
    decreases |b|
  {
    if b == [] {
      assert a + b == a;
    } else {
      var n := |b| - 1;
      assert (a + b)[..|a + b| - 1] == a + b[..n];
      assert (a + b)[|a + b| - 1] == b[n];
      GatherAppend(a, b[..n]);
    }
  }

  /** Records are taken one at a time in log order: each group keeps the order of the log. */
  lemma CommitsOfAppend(a: seq<string>, b: seq<string>)
    ensures CommitsOf(a + b) == Concat(CommitsOf(a), CommitsOf(b))
  {
    var ea, eb := Entries(a), Entries(b);
    assert Entries(a + b) == ea + eb by {
      forall i | 0 <= i < |a + b| ensures Entries(a + b)[i] == (ea + eb)[i] {
        if i < |a| {
          assert (a + b)[i] == a[i];
        } else {
          assert (a + b)[i] == b[i - |a|];
        }
      }
    }
    GatherAppend(Entries(a), Entries(b));
  }

  // ---------------------------------------------------------------------------
  // The log text of a revision range
  // ---------------------------------------------------------------------------

  /** `run_git_command` as written: the command's output with `str.strip()` applied. */
  function GitOutput(stdout: string): string
  {
    Strip(stdout)
  }

  /**
   * The commits of a range as written: the output of `git log` goes through
   * `GitOutput`, whose `str.strip()` also removes the separators U+001F and
   * U+001E, which Python counts as whitespace, from the end of the text.
   */
  function RangeCommitsAsWritten(stdout: string): Commits
  {
    CollectedCommits(GitOutput(stdout))
  }

  /** The commits of a range as intended: every record reaches the parser with its three fields. */
  function RangeCommits(stdout: string): Commits
  {
    CollectedCommits(stdout)
  }

  lemma {:induction false} RTrimOfSpaces(x: string, y: string)
    requires x != [] && !IsSpace(x[|x| - 1])
    requires forall i | 0 <= i < |y| :: IsSpace(y[i])
    ensures RTrim(x + y) == x
    decreases |y|
  {
    if y == [] {
      assert x + y == x;
    } else {
      var n := |y| - 1;
      assert (x + y)[..|x + y| - 1] == x + y[..n];
      RTrimOfSpaces(x, y[..n]);
    }
  }

  lemma StripKeepsCore(x: string, y: string)
    requires x != [] && !IsSpace(x[0]) && !IsSpace(x[|x| - 1])
    requires forall i | 0 <= i < |y| :: IsSpace(y[i])
    ensures Strip(x + y) == x
  {
    assert LTrim(x + y) == x + y;
    RTrimOfSpaces(x, y);
  }

  /** A text without record separators is a log of one record. */
  lemma CollectedSingle(x: string)
    requires x != [] && RecordSep !in x
    ensures CollectedCommits(x) == Gather([RecordEntry(x)])
  {
    SplitWithoutSep(x, RecordSep);
    assert Entries([x]) == [RecordEntry(x)];
  }

  /** A record of two fields yields no entry. */
  lemma TwoFieldsSkipped(record: string, h: string, subject: string)
    requires FieldSep !in h && FieldSep !in subject && record == h + [FieldSep] + subject
    ensures RecordEntry(record).None?
  {
    SplitAfter(h, FieldSep, subject);
    SplitWithoutSep(subject, FieldSep);
    assert |Split(record, FieldSep)| == 2;
  }

  /**
   * As written, the newest commit of a range is lost when its body is empty:
   * stripping the output leaves its record with two fields.
   */
  lemma AsWrittenDropsNewest(h: string, subject: string, stdout: string)
    requires h != [] && !IsSpace(h[0]) && FieldSep !in h && RecordSep !in h
    requires subject != [] && !IsSpace(subject[|subject| - 1]) && FieldSep !in subject && RecordSep !in subject
    requires stdout == h + [FieldSep] + subject + [FieldSep, RecordSep]
    ensures RangeCommitsAsWritten(stdout) == Commits([], [])
  {
    var x := h + [FieldSep] + subject;
    assert stdout == x + [FieldSep, RecordSep];
    StripKeepsCore(x, [FieldSep, RecordSep]);
    CollectedSingle(x);
    TwoFieldsSkipped(x, h, subject);
    assert Gather([RecordEntry(x)]) == Gather([]);
  }

  /** A record and the empty text after the final separator. */
  lemma SplitLastRecord(record: string)
    requires RecordSep !in record
    ensures Split(record + [RecordSep], RecordSep) == [record, []]
  {
    assert record + [RecordSep] == record + [RecordSep] + [];
    SplitAfter(record, RecordSep, []);
    SplitWithoutSep([], RecordSep);
  }

  lemma GatherEntryThenNone(e: CommitEntry)
    ensures Gather([Some(e), None]) == AddEntry(Commits([], []), e)
  {
    var one := [Some(e)];
    var two := one + [None];
    assert two[..1] == one && one[..0] == [];
    assert Gather(one) == AddEntry(Gather([]), e);
    assert two == [Some(e), None];
  }

  lemma EmptyRecord()
    ensures RecordEntry([]) == None
  {
  }

  lemma CollectedOfRecords(log: string, records: seq<string>)
    requires log != [] && Split(log, RecordSep) == records
    ensures CollectedCommits(log) == Gather(Entries(records))
  {
  }

  lemma EntriesPair(x: string, y: string)
    ensures Entries([x, y]) == [RecordEntry(x), RecordEntry(y)]
  {
  }

  /** As intended, a commit whose record yields an entry is collected, also when it is the last one. */
  lemma RangeKeepsNewest(record: string, stdout: string, e: CommitEntry)
    requires RecordSep !in record && RecordEntry(record) == Some(e) && stdout == record + [RecordSep]
    ensures RangeCommits(stdout) == AddEntry(Commits([], []), e)
  {
    SplitLastRecord(record);
    CollectedOfRecords(stdout, [record, []]);
    EntriesPair(record, []);
    EmptyRecord();
    GatherEntryThenNone(e);
  }

  /**
   * The newest commit of a range, when its body is empty: as intended it is
   * collected, as written it is lost.
   */
  lemma RecordOfFields(h: string, subject: string, record: string, stdout: string)
    requires RecordSep !in h && RecordSep !in subject
    requires record == h + [FieldSep] + subject + [FieldSep] && stdout == record + [RecordSep]
    ensures RecordSep !in record && stdout == h + [FieldSep] + subject + [FieldSep, RecordSep]
  {
  }

  lemma NewestCommitLost(h: string, subject: string, record: string, stdout: string, e: CommitEntry)
    requires h != [] && !IsSpace(h[0]) && FieldSep !in h && RecordSep !in h
    requires subject != [] && !IsSpace(subject[|subject| - 1]) && FieldSep !in subject && RecordSep !in subject
    requires record == h + [FieldSep] + subject + [FieldSep] && stdout == record + [RecordSep]
    requires RecordEntry(record) == Some(e)
    ensures RangeCommitsAsWritten(stdout) == Commits([], [])
    ensures RangeCommits(stdout) == AddEntry(Commits([], []), e)
  {
    RecordOfFields(h, subject, record, stdout);
    RangeKeepsNewest(record, stdout, e);
    AsWrittenDropsNewest(h, subject, stdout);
  }

  // ---------------------------------------------------------------------------
  // Rendering one release
  // ---------------------------------------------------------------------------

  const Fallback := "No qualifying commits were found for this release."

  /** A section of a release: the commit type it lists and its heading. */
  datatype Heading = Heading(kind: string, title: string)

  /** `sections`: features first, then bug fixes. */
  const Sections: seq<Heading> := [Heading("feat", "Features"), Heading("fix", "Bug Fixes")]

  /** `commits.get(commit_type, [])`. */
  function Group(commits: Commits, kind: string): seq<CommitEntry>
  {
    if kind == "feat" then commits.feat else if kind == "fix" then commits.fix else []
  }

  /** One `- description` line per entry, in order. */
  function Bullets(entries: seq<CommitEntry>): (r: seq<string>)
    ensures |r| == |entries|
  {
    if entries == [] then []
    else Bullets(entries[..|entries| - 1]) + ["- " + entries[|entries| - 1].description]
  }

  /** The `i`-th bullet is the `i`-th entry's description after a dash. */
  lemma {:induction false} BulletLines(entries: seq<CommitEntry>)
    ensures forall i :: 0 <= i < |entries| ==> Bullets(entries)[i] == "- " + entries[i].description
    decreases |entries|
  {
    if entries != [] {
      var n := |entries| - 1;
      BulletLines(entries[..n]);
    }
  }

  /** The lines a section adds: none for an empty group, else its heading, its bullets and a blank line. */
  function Block(commits: Commits, h: Heading): seq<string>
  {
    var entries := Group(commits, h.kind);
    if entries == [] then [] else ["### " + h.title] + Bullets(entries) + [""]
  }

  function Blocks(commits: Commits, hs: seq<Heading>): seq<string>
  {
    if hs == [] then [] else Blocks(commits, hs[..|hs| - 1]) + Block(commits, hs[|hs| - 1])
  }

  /**
   * The lines of a release under its title: the non-empty sections without
   * the final blank line, or the fallback sentence when both are empty.
   */
  function SectionLines(title: string, commits: Commits): seq<string>
  {
    var body := Blocks(commits, Sections);
    if body == [] then [title, Fallback] else [title] + body[..|body| - 1]
  }

  /** Whatever sections were emitted, the last line emitted is blank. */
  lemma {:induction false} BlocksEndBlank(commits: Commits, hs: seq<Heading>)
    ensures Blocks(commits, hs) == [] || Blocks(commits, hs)[|Blocks(commits, hs)| - 1] == ""
    decreases |hs|
  {
    if hs != [] {
      BlocksEndBlank(commits, hs[..|hs| - 1]);
    }
  }

  lemma BulletsSnoc(entries: seq<CommitEntry>, j: nat)
    requires j < |entries|
    ensures Bullets(entries[..j + 1]) == Bullets(entries[..j]) + ["- " + entries[j].description]
  {
    assert entries[..j + 1][..j] == entries[..j];
  }

  lemma BlockOfEntries(commits: Commits, h: Heading, entries: seq<CommitEntry>)
    requires entries == Group(commits, h.kind) && entries != []
    ensures Block(commits, h) == ["### " + h.title] + Bullets(entries) + [""]
  {
  }

  lemma Associative<T>(a: seq<T>, b: seq<T>, c: seq<T>)
    ensures a + (b + c) == a + b + c
  {
  }

  lemma BlockEmpty(commits: Commits, h: Heading)
    ensures Block(commits, h) == [] <==> Group(commits, h.kind) == []
  {
  }

  lemma BlocksSnoc(commits: Commits, hs: seq<Heading>, k: nat)
    requires k < |hs|
    ensures Blocks(commits, hs[..k + 1]) == Blocks(commits, hs[..k]) + Block(commits, hs[k])
  {
    assert hs[..k + 1][..k] == hs[..k];
  }

  /** The body of the loop over the sections: one section's lines appended. */
  method AppendBlock(lines: seq<string>, commits: Commits, h: Heading) returns (result: seq<string>)
    ensures result == lines + Block(commits, h)
  {
    result := lines;
    var entries := Group(commits, h.kind);
    if entries == [] {
      return;
    }
    result := result + ["### " + h.title];
    for j := 0 to |entries|
      invariant result == lines + ["### " + h.title] + Bullets(entries[..j])
    {
      BulletsSnoc(entries, j);
      result := result + ["- " + entries[j].description];
    }
    assert entries[..|entries|] == entries;
    result := result + [""];
    BlockOfEntries(commits, h, entries);
    assert result == lines + (["### " + h.title] + Bullets(entries) + [""]);
  }

  /** After the loop over the sections: what the final clean-up must do to reach `SectionLines`. */
  lemma SectionsDone(title: string, commits: Commits, lines: seq<string>, hasEntries: bool)
    requires lines == [title] + Blocks(commits, Sections[..|Sections|])
    requires hasEntries <==> Blocks(commits, Sections[..|Sections|]) != []
    ensures hasEntries ==> |lines| > 1 && lines[|lines| - 1] == "" && lines[..|lines| - 1] == SectionLines(title, commits)
    ensures !hasEntries ==> lines + [Fallback] == SectionLines(title, commits)
  {
    var hs := Sections;
    assert hs[..|hs|] == hs;
    BlocksEndBlank(commits, hs);
  }

  /** The loop `render_release` and `render_unreleased` share, under the given title line. */
  method RenderSections(title: string, commits: Commits) returns (lines: seq<string>)
    ensures lines == SectionLines(title, commits)
  {
    lines := [title];
    var hasEntries := false;
    for k := 0 to |Sections|
      invariant lines == [title] + Blocks(commits, Sections[..k])
      invariant hasEntries <==> Blocks(commits, Sections[..k]) != []
    {
      BlocksSnoc(commits, Sections, k);
      BlockEmpty(commits, Sections[k]);
      Associative([title], Blocks(commits, Sections[..k]), Block(commits, Sections[k]));
      hasEntries := hasEntries || Group(commits, Sections[k].kind) != [];
      lines := AppendBlock(lines, commits, Sections[k]);
    }
    SectionsDone(title, commits, lines, hasEntries);
    if hasEntries {
      if lines[|lines| - 1] == "" {
        lines := lines[..|lines| - 1];
      }
    } else {
      lines := lines + [Fallback];
    }
  }

  /** The two sections, in their fixed order. */
  lemma BlocksOfSections(commits: Commits)
    ensures Blocks(commits, Sections) == Block(commits, Sections[0]) + Block(commits, Sections[1])
  {
    var hs := Sections;
    var one := hs[..1];
    assert |hs| == 2 && hs[..|hs| - 1] == one;
    assert Blocks(commits, hs) == Blocks(commits, one) + Block(commits, hs[1]);
    assert |one| == 1 && one[..0] == [] && one[0] == hs[0];
    assert Blocks(commits, one) == Blocks(commits, []) + Block(commits, hs[0]);
  }

  /** The title, then the sections' lines without the last one, or the fallback sentence. */
  lemma SectionLinesOf(title: string, commits: Commits, f: seq<string>, x: seq<string>)
    requires f == Block(commits, Sections[0]) && x == Block(commits, Sections[1])
    ensures f + x == [] ==> SectionLines(title, commits) == [title, Fallback]
    ensures f + x != [] ==> SectionLines(title, commits) == [title] + (f + x)[..|f + x| - 1]
  {
    BlocksOfSections(commits);
  }

  /** What a release looks like, case by case on which of its groups are empty. */
  lemma ReleaseLayout(title: string, commits: Commits)
    ensures commits.feat == [] && commits.fix == [] ==> SectionLines(title, commits) == [title, Fallback]
    ensures commits.feat != [] && commits.fix == [] ==>
      SectionLines(title, commits) == [title, "### Features"] + Bullets(commits.feat)
    ensures commits.feat == [] && commits.fix != [] ==>
      SectionLines(title, commits) == [title, "### Bug Fixes"] + Bullets(commits.fix)
    ensures commits.feat != [] && commits.fix != [] ==>
      SectionLines(title, commits) == [title, "### Features"] + Bullets(commits.feat) + ["", "### Bug Fixes"] + Bullets(commits.fix)
  {
    var f, x := Block(commits, Sections[0]), Block(commits, Sections[1]);
    SectionLinesOf(title, commits, f, x);
    var body := f + x;
    if commits.feat != [] {
      FeaturesBlock(commits);
    } else {
      assert f == [];
    }
    if commits.fix != [] {
      FixesBlock(commits);
    } else {
      assert x == [];
    }
    if commits.feat != [] && commits.fix != [] {
      assert body[..|body| - 1] == f + x[..|x| - 1];
    } else if commits.feat != [] {
      assert body == f;
    } else if commits.fix != [] {
      assert body == x;
    }
  }

  lemma FeaturesBlock(commits: Commits)
    requires commits.feat != []
    ensures Block(commits, Sections[0]) == ["### Features"] + Bullets(commits.feat) + [""]
  {
    assert "### " + "Features" == "### Features";
  }

  lemma FixesBlock(commits: Commits)
    requires commits.fix != []
    ensures Block(commits, Sections[1]) == ["### Bug Fixes"] + Bullets(commits.fix) + [""]
  {
    assert "### " + "Bug Fixes" == "### Bug Fixes";
  }

  /** A release as it is rendered. */
  datatype Release = Release(tag: string, version: Version, date: string, commits: Commits)

  /** `display_name` under the `## ` of its heading. */
  function Title(release: Release): string
  {
    "## " + release.tag + " - " + release.date
  }

  method RenderRelease(release: Release) returns (lines: seq<string>)
    ensures lines == SectionLines(Title(release), release.commits)
  {
    lines := RenderSections(Title(release), release.commits);
  }

  method RenderUnreleased(commits: Commits) returns (lines: seq<string>)
    ensures lines == SectionLines("## Unreleased", commits)
  {
    lines := RenderSections("## Unreleased", commits);
  }

  // ---------------------------------------------------------------------------
  // Ordering the releases
  // ---------------------------------------------------------------------------

  /** Every release comes before the ones with a lower version. */
  predicate Descending(rs: seq<Release>)
  {
    forall i, j :: 0 <= i < j < |rs| ==> !Below(rs[i].version, rs[j].version)
  }

  /**
   * Places `r` after every release of `sorted` whose version is not lower
   * than its own, so that releases with equal versions keep their order.
   */
  function InsertByVersion(r: Release, sorted: seq<Release>): seq<Release>
  {
    if sorted == [] || Below(sorted[0].version, r.version) then [r] + sorted
    else [sorted[0]] + InsertByVersion(r, sorted[1..])
  }

  /** `releases.sort(key=version, reverse=True)`, a stable sort. */
  function SortByVersion(rs: seq<Release>): seq<Release>
  {
    if rs == [] then [] else InsertByVersion(rs[|rs| - 1], SortByVersion(rs[..|rs| - 1]))
  }

  lemma {:induction false} InsertPermutes(r: Release, sorted: seq<Release>)
    ensures multiset(InsertByVersion(r, sorted)) == multiset(sorted) + multiset{r}
    decreases |sorted|
  {
    if sorted != [] && !Below(sorted[0].version, r.version) {
      InsertPermutes(r, sorted[1..]);
      assert sorted == [sorted[0]] + sorted[1..];
    }
  }

  lemma {:induction false} SortByVersionPermutes(rs: seq<Release>)
    ensures multiset(SortByVersion(rs)) == multiset(rs)
    decreases |rs|
  {
    if rs != [] {
      var n := |rs| - 1;
      SortByVersionPermutes(rs[..n]);
      InsertPermutes(rs[n], SortByVersion(rs[..n]));
      assert rs == rs[..n] + [rs[n]];
    }
  }

  lemma BelowTransitive(a: Version, b: Version, c: Version)
    requires !Below(a, b) && !Below(b, c)
    ensures !Below(a, c)
  {
  }

  lemma {:induction false} InsertDescending(r: Release, sorted: seq<Release>)
    requires Descending(sorted)
    ensures Descending(InsertByVersion(r, sorted))
    decreases |sorted|
  {
    var s := InsertByVersion(r, sorted);
    if sorted == [] || Below(sorted[0].version, r.version) {
      forall i, j | 0 <= i < j < |s| ensures !Below(s[i].version, s[j].version) {
        if i == 0 && j > 1 {
          assert !Below(sorted[0].version, sorted[j - 1].version);
        }
      }
    } else {
      var rest := InsertByVersion(r, sorted[1..]);
      InsertDescending(r, sorted[1..]);
      InsertPermutes(r, sorted[1..]);
      forall j | 0 <= j < |rest| ensures !Below(sorted[0].version, rest[j].version) {
        assert rest[j] in multiset(rest);
        if rest[j] != r {
          assert rest[j] in sorted[1..];
        }
      }
      assert s == [sorted[0]] + rest;
    }
  }

  lemma {:induction false} SortByVersionDescending(rs: seq<Release>)
    ensures Descending(SortByVersion(rs))
    decreases |rs|
  {
    if rs != [] {
      var n := |rs| - 1;
      SortByVersionDescending(rs[..n]);
      InsertDescending(rs[n], SortByVersion(rs[..n]));
    }
  }

  // ---------------------------------------------------------------------------
  // Gathering the releases
  // ---------------------------------------------------------------------------

  /** `range_spec`: everything up to the tag, or what follows the previous tag. */
  function RangeSpec(current: string, previous: Option<string>): string
  {
    match previous
    case None => current
    case Some(p) => p + ".." + current
  }

  /**
   * The release of the `i`-th discovered tag. `day` gives the calendar date of
   * a tag's commit, and `log` the text `run_git_command` returns for `git log`
   * over a revision range, which `collect_commits` splits. As written that
   * text is `GitOutput` of the command's output (see `ReleaseCommitsAsWritten`);
   * with the strip dropped it is the output itself (`RangeKeepsNewest`).
   */
  function ReleaseAt(tagged: seq<TaggedVersion>, i: nat, day: string -> string, log: string -> string): Release
    requires i < |tagged|
  {
    var previous := if i == 0 then None else Some(tagged[i - 1].tag);
    Release(tagged[i].tag, tagged[i].version, day(tagged[i].tag), RangeCommits(log(RangeSpec(tagged[i].tag, previous))))
  }

  /**
   * With `log` the stripped text `run_git_command` returns for a command
   * output `stdout`, a release whose range holds one conventional commit with
   * an empty body gets no commits: the strip loses that newest record's third
   * field.
   */
  lemma ReleaseCommitsAsWritten(tagged: seq<TaggedVersion>, i: nat, day: string -> string, stdout: string -> string,
                                h: string, subject: string)
    requires i < |tagged|
    requires h != [] && !IsSpace(h[0]) && FieldSep !in h && RecordSep !in h
    requires subject != [] && !IsSpace(subject[|subject| - 1]) && FieldSep !in subject && RecordSep !in subject
    requires var previous := if i == 0 then None else Some(tagged[i - 1].tag);
      stdout(RangeSpec(tagged[i].tag, previous)) == h + [FieldSep] + subject + [FieldSep, RecordSep]
    ensures ReleaseAt(tagged, i, day, r => GitOutput(stdout(r))).commits == Commits([], [])
  {
    var previous := if i == 0 then None else Some(tagged[i - 1].tag);
    AsWrittenDropsNewest(h, subject, stdout(RangeSpec(tagged[i].tag, previous)));
  }

  /** The releases of the first `i` discovered tags, in tag creation order. */
  function ReleasesUpTo(tagged: seq<TaggedVersion>, i: nat, day: string -> string, log: string -> string): (r: seq<Release>)
    requires i <= |tagged|
    ensures |r| == i
  {
    if i == 0 then [] else ReleasesUpTo(tagged, i - 1, day, log) + [ReleaseAt(tagged, i - 1, day, log)]
  }

  /** The releases in tag creation order, before sorting. */
  function Unsorted(tags: seq<string>, day: string -> string, log: string -> string): seq<Release>
  {
    var tagged := MinorReleases(tags);
    ReleasesUpTo(tagged, |tagged|, day, log)
  }

  /** What `gather_releases` returns. */
  function Releases(tags: seq<string>, day: string -> string, log: string -> string): seq<Release>
  {
    SortByVersion(Unsorted(tags, day, log))
  }

  /** `gather_releases`, given the tag list, the tag dates and the range logs. */
  method GatherReleases(tags: seq<string>, day: string -> string, log: string -> string) returns (releases: seq<Release>)
    ensures releases == Releases(tags, day, log)
  {
    var tagged := DiscoverReleaseTags(tags);
    var built: seq<Release> := [];
    var previous: Option<string> := None;
    for i := 0 to |tagged|
      invariant built == ReleasesUpTo(tagged, i, day, log)
      invariant previous == if i == 0 then None else Some(tagged[i - 1].tag)
    {
      var t := tagged[i];
      var commits := CollectCommits(log(RangeSpec(t.tag, previous)));
      var release := Release(t.tag, t.version, day(t.tag), commits);
      assert release == ReleaseAt(tagged, i, day, log);
      built := built + [release];
      previous := Some(t.tag);
    }
    releases := SortByVersion(built);
  }

  /** The releases are those of the discovered tags, highest version first. */
  lemma ReleasesOrdered(tags: seq<string>, day: string -> string, log: string -> string)
    ensures Descending(Releases(tags, day, log))
    ensures multiset(Releases(tags, day, log)) == multiset(Unsorted(tags, day, log))
  {
    SortByVersionDescending(Unsorted(tags, day, log));
    SortByVersionPermutes(Unsorted(tags, day, log));
  }

  // ---------------------------------------------------------------------------
  // The changelog text
  // ---------------------------------------------------------------------------

  const Header: seq<string> := ["# Changelog", "", "_This changelog is auto-generated by `scripts/generate_changelog.py`._", ""]

  const NoTags := "No major or minor release tags (v<major>.<minor>.0) were found in this repository."

  /** The releases' lines, one blank line between two releases. */
  function ReleaseBlocks(rs: seq<Release>): seq<string>
  {
    if rs == [] then []
    else
      var n := |rs| - 1;
      ReleaseBlocks(rs[..n]) + (if n == 0 then [] else [""]) + SectionLines(Title(rs[n]), rs[n].commits)
  }

  /** Whether the unreleased commits fill a section: `any(unreleased_commits.get(t) for t in ...)`. */
  predicate HasEntries(commits: Commits)
  {
    commits.feat != [] || commits.fix != []
  }

  /**
   * The lines `build_changelog` joins: the notice alone when there is
   * neither a release nor an unreleased entry, else the unreleased section,
   * a blank line and the releases.
   */
  function ChangelogLines(releases: seq<Release>, unreleased: Commits): seq<string>
  {
    if releases == [] && !HasEntries(unreleased) then Header + [NoTags, ""]
    else Header + SectionLines("## Unreleased", unreleased) + [""] + ReleaseBlocks(releases)
  }

  /** `"\n".join(lines).rstrip() + "\n"`: the text ends in exactly one line break, after a visible character. */
  function Finish(lines: seq<string>): (text: string)
    ensures |text| >= 1 && text[|text| - 1] == '\n'
    ensures |text| == 1 || !IsSpace(text[|text| - 2])
  {
    RTrim(Join(lines, "\n")) + "\n"
  }

  /** The release loop's state after `i` releases: their blocks, and a blank line unless the last was emitted. */
  function AfterReleases(base: seq<string>, rs: seq<Release>, i: nat): seq<string>
    requires i <= |rs|
  {
    base + ReleaseBlocks(rs[..i]) + (if 0 < i < |rs| then [""] else [])
  }

  lemma ReleaseBlocksSnoc(rs: seq<Release>, i: nat)
    requires i < |rs|
    ensures ReleaseBlocks(rs[..i + 1]) == ReleaseBlocks(rs[..i]) + (if i == 0 then [] else [""]) + SectionLines(Title(rs[i]), rs[i].commits)
  {
    assert rs[..i + 1][..i] == rs[..i];
  }

  lemma ReleaseStep(base: seq<string>, rs: seq<Release>, i: nat, block: seq<string>)
    requires i < |rs| && block == SectionLines(Title(rs[i]), rs[i].commits)
    ensures AfterReleases(base, rs, i) + block + (if i != |rs| - 1 then [""] else []) == AfterReleases(base, rs, i + 1)
  {
    ReleaseBlocksSnoc(rs, i);
    var done := ReleaseBlocks(rs[..i]);
    var sep: seq<string> := if i == 0 then [] else [""];
    var tail: seq<string> := if i != |rs| - 1 then [""] else [];
    assert AfterReleases(base, rs, i) == base + done + sep;
    assert AfterReleases(base, rs, i + 1) == base + ReleaseBlocks(rs[..i + 1]) + tail;
    Associative(base, done + sep, block);
    Associative(base, done, sep);
  }

  lemma LinesAfterReleases(base: seq<string>, releases: seq<Release>, unreleased: Commits)
    requires releases != [] || HasEntries(unreleased)
    requires base == Header + SectionLines("## Unreleased", unreleased) + [""]
    ensures AfterReleases(base, releases, |releases|) == ChangelogLines(releases, unreleased)
  {
    assert releases[..|releases|] == releases;
    assert AfterReleases(base, releases, |releases|) == base + ReleaseBlocks(releases) + [];
  }

  /** The body of `build_changelog` once the releases and the unreleased commits are known. */
  method RenderChangelog(releases: seq<Release>, unreleased: Commits) returns (text: string)
    ensures text == Finish(ChangelogLines(releases, unreleased))
  {
    var lines := Header;
    if releases == [] && !HasEntries(unreleased) {
      lines := lines + [NoTags];
      lines := lines + [""];
      assert lines == Header + [NoTags, ""];
      text := Finish(lines);
      return;
    }
    var section := RenderUnreleased(unreleased);
    lines := lines + section;
    lines := lines + [""];
    ghost var base := lines;
    assert releases[..0] == [];
    for i := 0 to |releases|
      invariant lines == AfterReleases(base, releases, i)
    {
      var block := RenderRelease(releases[i]);
      ReleaseStep(base, releases, i, block);
      lines := lines + block;
      if i != |releases| - 1 {
        lines := lines + [""];
      }
    }
    LinesAfterReleases(base, releases, unreleased);
    text := Finish(lines);
  }

  /**
   * The text of the changelog, for the given tag list, tag dates and range
   * logs; `log` is the text `run_git_command` returns, as in `ReleaseAt`.
   */
  function ChangelogText(tags: seq<string>, day: string -> string, log: string -> string): string
  {
    var releases := Releases(tags, day, log);
    var latest := if releases == [] then None else Some(releases[0].tag);
    Finish(ChangelogLines(releases, RangeCommits(log(RangeSpec("HEAD", latest)))))
  }

  /** `build_changelog`: the unreleased commits are those after the highest release. */
  method BuildChangelog(tags: seq<string>, day: string -> string, log: string -> string) returns (text: string)
    ensures text == ChangelogText(tags, day, log)
  {
    var releases := GatherReleases(tags, day, log);
    var latest := if releases == [] then None else Some(releases[0].tag);
    var unreleased := CollectCommits(log(RangeSpec("HEAD", latest)));
    text := RenderChangelog(releases, unreleased);
  }

  lemma {:induction false} JoinSnoc(parts: seq<string>, x: string, sep: string)
    requires parts != []
    ensures Join(parts + [x], sep) == Join(parts, sep) + sep + x
    decreases |parts|
  {
    if |parts| == 1 {
      assert parts + [x] == [parts[0], x];
    } else {
      JoinSnoc(parts[1..], x, sep);
      assert (parts + [x])[1..] == parts[1..] + [x];
    }
  }

  /** Without releases or unreleased entries the text is the header and the notice, each on its own line. */
  lemma NoTagsText(releases: seq<Release>, unreleased: Commits)
    requires releases == [] && !HasEntries(unreleased)
    ensures Finish(ChangelogLines(releases, unreleased)) == Join(Header + [NoTags], "\n") + "\n"
  {
    var lines := Header + [NoTags];
    JoinSnoc(Header, NoTags, "\n");
    JoinSnoc(lines, "", "\n");
    assert lines + [""] == Header + [NoTags, ""];
    var joined := Join(lines, "\n");
    assert joined[|joined| - 1] == NoTags[|NoTags| - 1] == '.';
    assert Join(lines + [""], "\n") == joined + "\n";
    RTrimOfSpaces(joined, "\n");
  }

  // ---------------------------------------------------------------------------
  // The command
  // ---------------------------------------------------------------------------

  /** The exit status of `main` and the text it writes to the output file, if any. */
  datatype Outcome = Outcome(exitCode: int, written: Option<string>)

  /**
   * `main`: `built` is the text `build_changelog` returned or the message of
   * the `ChangelogError` it raised; `existing` is the output file's content
   * when the file exists.
   */
  function RunMain(check: bool, built: Result<string, string>, existing: Option<string>): (r: Outcome)
    ensures built.Failure? ==> r == Outcome(1, None)
    ensures check ==> r.written == None
    ensures check && built.Success? ==> (r.exitCode == 0 <==> existing == Some(built.value))
    ensures r.exitCode == 0 || r.exitCode == 1
    ensures !check && built.Success? ==> r == Outcome(0, Some(built.value))
  {
    if built.Failure? then Outcome(1, None)
    else if check then
      if existing.None? then Outcome(1, None)
      else if existing.value != built.value then Outcome(1, None)
      else Outcome(0, None)
    else Outcome(0, Some(built.value))
  }
}
