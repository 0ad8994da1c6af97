/** The annotation language `repo|host|name` and the restic arguments it is turned into. Several functions of the
    operator read it independently; here they are compared with one another, and backup with restore. */
module ResticArgs {
  import opened Reconciling

  datatype EnvVar = EnvVar(name: string, value: string)

  datatype Repo = Repo(target: string, priority: int, env: seq<EnvVar>)

  datatype Params = Params(repos: seq<Repo>, pvcNamespace: string, pvcName: string, annotation: string,
    taskName: string)

  const PIPE := '|'
  const MOUNT_PATH := "/data"

  /* ---- splitting ---- */

  /** The parts between pipes; there is always one more part than there are pipes. */
  function Split(s: string): (parts: seq<string>)
    ensures |parts| >= 1
    ensures forall p :: p in parts ==> PIPE !in p
  {
    if s == "" then [""]
    else
      var rest := Split(s[1..]);
      if s[0] == PIPE then [""] + rest else [[s[0]] + rest[0]] + rest[1..]
  }

  function Join(parts: seq<string>): string
    requires |parts| >= 1
  {
    if |parts| == 1 then parts[0] else parts[0] + [PIPE] + Join(parts[1..])
  }

  lemma {:induction false} SplitAfterPipe(a: string, b: string)
    requires PIPE !in a
    ensures Split(a + [PIPE] + b) == [a] + Split(b)
  {
    var s := a + [PIPE] + b;
    if a == "" {
      assert s[1..] == b;
    } else {
      SplitAfterPipe(a[1..], b);
      assert s[1..] == a[1..] + [PIPE] + b;
      assert [s[0]] + a[1..] == a;
    }
  }

  lemma {:induction false} SplitWithoutPipe(s: string)
    requires PIPE !in s
    ensures Split(s) == [s]
  {
    if s != "" {
      SplitWithoutPipe(s[1..]);
      assert [s[0]] + s[1..] == s;
    }
  }

  /** Splitting and joining undo each other. */
  lemma {:induction false} SplitJoin(parts: seq<string>)
    requires |parts| >= 1 && forall p :: p in parts ==> PIPE !in p
    ensures Split(Join(parts)) == parts
  {
    if |parts| == 1 {
      SplitWithoutPipe(parts[0]);
    } else {
      SplitJoin(parts[1..]);
      SplitAfterPipe(parts[0], Join(parts[1..]));
      assert parts == [parts[0]] + parts[1..];
    }
  }

  lemma {:induction false} JoinSplit(s: string)
    ensures Join(Split(s)) == s
  {
    if s != "" {
      JoinSplit(s[1..]);
      var rest := Split(s[1..]);
      if s[0] == PIPE {
        assert ([""] + rest)[1..] == rest;
        assert s == "" + [PIPE] + s[1..];
      } else if |rest| == 1 {
        assert s == [s[0]] + rest[0];
      } else {
        var parts := [[s[0]] + rest[0]] + rest[1..];
        assert parts[1..] == rest[1..];
        assert Join(parts) == [s[0]] + Join(rest);
      }
    }
  }

  /* ---- numbers ---- */

  predicate IsDigit(c: char) {
    '0' <= c <= '9'
  }

  function DigitValue(c: char): int
    requires IsDigit(c)
  {
    (c - '0') as int
  }

  /** White space that scanning skips before a number; a line break is not skipped. */
  predicate IsSpace(c: char) {
    c == ' ' || c == '\t' || c == '\r' || c == '\U{000B}' || c == '\U{000C}' || c == '\U{0085}' || c == '\U{00A0}'
    || c == '\U{1680}' || '\U{2000}' <= c <= '\U{200A}' || c == '\U{2028}' || c == '\U{2029}' || c == '\U{202F}'
    || c == '\U{205F}' || c == '\U{3000}'
  }

  function SkipSpace(s: string): string {
    if s != "" && IsSpace(s[0]) then SkipSpace(s[1..]) else s
  }

  /** The value of the digits that `s` starts with, continuing from `acc`. What follows them is ignored. */
  function LeadingDigits(s: string, acc: int): int {
    if s != "" && IsDigit(s[0]) then LeadingDigits(s[1..], 10 * acc + DigitValue(s[0])) else acc
  }

  predicate IsInt32(n: int) {
    -0x8000_0000 <= n < 0x8000_0000
  }

  /** Reads a 32-bit number as scanning with the verb `%d` does: leading white space, a sign, at least one digit,
      and anything after the digits. */
  function ReadNumber(s: string): Option<int> {
    var t := SkipSpace(s);
    var signed := t != "" && (t[0] == '-' || t[0] == '+');
    var digits := if signed then t[1..] else t;
    if digits == "" || !IsDigit(digits[0]) then None
    else
      var magnitude := LeadingDigits(digits, 0);
      var n := if signed && t[0] == '-' then -magnitude else magnitude;
      if IsInt32(n) then Some(n) else None
  }

  /** Decimal notation. */
  function Digits(n: nat): (s: string)
    ensures s != "" && forall c :: c in s ==> IsDigit(c)
  {
    var last := ['0' + (n % 10) as char];
    if n < 10 then last else Digits(n / 10) + last
  }

  function Decimal(n: int): string {
    if n < 0 then ['-'] + Digits(-n) else Digits(n)
  }

  /** Something that does not continue a number. */
  predicate EndsNumber(rest: string) {
    rest == "" || !IsDigit(rest[0])
  }

  lemma {:induction false} LeadingDigitsAppend(a: string, c: char, rest: string, acc: int)
    requires (forall d :: d in a ==> IsDigit(d)) && IsDigit(c) && EndsNumber(rest)
    ensures LeadingDigits(a + [c] + rest, acc) == 10 * LeadingDigits(a, acc) + DigitValue(c)
  {
    var s := a + [c] + rest;
    if a == "" {
      assert s[1..] == rest;
    } else {
      assert s[1..] == a[1..] + [c] + rest;
      LeadingDigitsAppend(a[1..], c, rest, 10 * acc + DigitValue(a[0]));
    }
  }

  lemma {:induction false} LeadingDigitsOfDigits(n: nat, rest: string)
    requires EndsNumber(rest)
    ensures LeadingDigits(Digits(n) + rest, 0) == n
    decreases n
  {
    var last := '0' + (n % 10) as char;
    assert DigitValue(last) == n % 10;
    if n < 10 {
      assert Digits(n) == "" + [last];
      LeadingDigitsAppend("", last, rest, 0);
    } else {
      var front := Digits(n / 10);
      assert Digits(n) + rest == front + [last] + rest;
      LeadingDigitsAppend(front, last, rest, 0);
      LeadingDigitsOfDigits(n / 10, "");
      assert front + "" == front;
    }
  }

  /** Reading undoes writing, for every 32-bit number and whatever follows it: `3rd-repo` reads as 3. */
  lemma ReadNumberOfDecimal(n: int, rest: string)
    requires IsInt32(n) && EndsNumber(rest)
    ensures ReadNumber(Decimal(n) + rest) == Some(n)
  {
    var s := Decimal(n) + rest;
    var magnitude: nat := if n < 0 then -n else n;
    LeadingDigitsOfDigits(magnitude, rest);
    assert IsDigit(Digits(magnitude)[0]);
    assert SkipSpace(s) == s;
    if n < 0 {
      assert s[1..] == Digits(magnitude) + rest;
    }
  }

  lemma {:induction false} SpacesAreSkipped(spaces: string, s: string)
    requires forall c :: c in spaces ==> IsSpace(c)
    ensures SkipSpace(spaces + s) == SkipSpace(s)
  {
    if spaces == "" {
      assert spaces + s == s;
    } else {
      assert (spaces + s)[1..] == spaces[1..] + s;
      SpacesAreSkipped(spaces[1..], s);
    }
  }

  /** White space in front and a sign are read over; a number of more than 32 bits is none. */
  lemma ReadNumberOfSigned(spaces: string, sign: string, n: nat, rest: string)
    requires (forall c :: c in spaces ==> IsSpace(c)) && EndsNumber(rest)
    requires sign == "" || sign == "+" || sign == "-"
    ensures var value: int := if sign == "-" then -(n as int) else n;
      ReadNumber(spaces + (sign + Digits(n) + rest)) ==
      if -0x8000_0000 <= value <= 0x7fff_ffff then Some(value) else None
  {
    SpacesAreSkipped(spaces, sign + Digits(n) + rest);
    SignIsRead(sign, n, rest);
  }

  lemma SignIsRead(sign: string, n: nat, rest: string)
    requires EndsNumber(rest) && (sign == "" || sign == "+" || sign == "-")
    ensures var s := sign + Digits(n) + rest; var value: int := if sign == "-" then -(n as int) else n;
      SkipSpace(s) == s && ReadNumber(s) == if -0x8000_0000 <= value <= 0x7fff_ffff then Some(value) else None
  {
    var s := sign + Digits(n) + rest;
    var digits := Digits(n) + rest;
    assert Digits(n)[0] in Digits(n) && IsDigit(digits[0]);
    LeadingDigitsOfDigits(n, rest);
    if sign == "" {
      assert s == digits;
      UnsignedIsRead(digits);
    } else {
      assert s == [sign[0]] + digits;
      SignedIsRead(sign[0], digits);
    }
  }

  lemma UnsignedIsRead(digits: string)
    requires digits != "" && IsDigit(digits[0])
    ensures SkipSpace(digits) == digits
    ensures var n := LeadingDigits(digits, 0); ReadNumber(digits) == if IsInt32(n) then Some(n) else None
  {
  }

  lemma SignedIsRead(sign: char, digits: string)
    requires (sign == '+' || sign == '-') && digits != "" && IsDigit(digits[0])
    ensures SkipSpace([sign] + digits) == [sign] + digits
    ensures var n := if sign == '-' then -LeadingDigits(digits, 0) else LeadingDigits(digits, 0);
      ReadNumber([sign] + digits) == if IsInt32(n) then Some(n) else None
  {
    assert ([sign] + digits)[1..] == digits;
  }

  /** A text that begins with neither space, sign nor digit is no number, nor is a sign that no digit follows. */
  lemma TextIsNoNumber(s: string)
    requires s == "" || !(IsSpace(s[0]) || IsDigit(s[0]) || s[0] == '+' || s[0] == '-')
    ensures ReadNumber(s) == None && ReadNumber("+" + s) == None && ReadNumber("-" + s) == None
  {
    assert ("+" + s)[1..] == s && ("-" + s)[1..] == s;
  }

  lemma DecimalHasNoPipe(n: int)
    ensures PIPE !in Decimal(n) && Decimal(n) != ""
  {
  }

  /* ---- choosing a repository ---- */

  /** The repository used when nothing else is asked for. */
  function Default(repos: seq<Repo>): Repo
    requires repos != []
  {
    var n := |repos| - 1;
    if n == 0 then repos[0]
    else
      var best := Default(repos[..n]);
      if repos[n].priority < best.priority then repos[n] else best
  }

  /** It is the first of those with the least priority number. */
  lemma {:induction false} DefaultIsFirstLeast(repos: seq<Repo>) returns (i: nat)
    requires repos != []
    ensures i < |repos| && repos[i] == Default(repos)
    ensures forall j :: 0 <= j < |repos| ==> repos[i].priority <= repos[j].priority
    ensures forall j :: 0 <= j < i ==> repos[i].priority < repos[j].priority
  {
    var n := |repos| - 1;
    if n == 0 {
      i := 0;
    } else {
      i := DefaultIsFirstLeast(repos[..n]);
      assert forall j :: 0 <= j < n ==> repos[..n][j] == repos[j];
      if repos[n].priority < repos[i].priority {
        i := n;
      }
    }
  }

  /** `r` is the first repository of the list that satisfies the given field. */
  ghost predicate FirstWithPriority(repos: seq<Repo>, n: int, r: Repo) {
    exists i :: 0 <= i < |repos| && repos[i] == r && r.priority == n
      && forall j :: 0 <= j < i ==> repos[j].priority != n
  }

  function WithPriority(repos: seq<Repo>, n: int): (r: Option<Repo>)
    ensures r == None ==> forall i :: 0 <= i < |repos| ==> repos[i].priority != n
    ensures r.Some? ==> FirstWithPriority(repos, n, r.value)
  {
    if repos == [] then None
    else if repos[0].priority == n then Some(repos[0])
    else
      var r := WithPriority(repos[1..], n);
      assert r.Some? ==> FirstWithPriority(repos, n, r.value) by {
        if r.Some? {
          var i :| 0 <= i < |repos[1..]| && repos[1..][i] == r.value
            && forall j :: 0 <= j < i ==> repos[1..][j].priority != n;
          assert repos[i + 1] == r.value;
          assert forall j :: 0 < j < i + 1 ==> repos[j] == repos[1..][j - 1];
        }
      }
      assert forall i :: 0 < i < |repos| ==> repos[i] == repos[1..][i - 1];
      r
  }

  /** Some repository has the target. */
  predicate HasTarget(repos: seq<Repo>, target: string) {
    exists r :: r in repos && r.target == target
  }

  /** The target that goes into `--repo` for a repository field. */
  function Resolved(repos: seq<Repo>, field: string): string
    requires repos != []
  {
    var byNumber := if field == "" || ReadNumber(field) == None then None
                    else WithPriority(repos, ReadNumber(field).value);
    if byNumber.Some? then byNumber.value.target
    else if field != "" && HasTarget(repos, field) then field
    else Default(repos).target
  }

  /** What a repository field means: nothing stands for the default; a number for the first repository of that priority;
      anything else, and a number that is nobody's priority, for the repository of that very target, if there is one, or
      else again for the default. */
  lemma RepositoryFieldMeans(repos: seq<Repo>, field: string, n: int)
    requires repos != [] && IsInt32(n)
    ensures Resolved(repos, "") == Default(repos).target
    ensures forall r :: FirstWithPriority(repos, n, r) ==> Resolved(repos, Decimal(n)) == r.target
    ensures field != "" && HasTarget(repos, field)
      && (ReadNumber(field) == None || (field == Decimal(n) && NoPriority(repos, n)))
      ==> Resolved(repos, field) == field
    ensures !HasTarget(repos, field) && (ReadNumber(field) == None || (field == Decimal(n) && NoPriority(repos, n)))
      ==> Resolved(repos, field) == Default(repos).target
  {
    ReadNumberOfDecimal(n, "");
    assert Decimal(n) + "" == Decimal(n);
    DecimalHasNoPipe(n);
    forall r | FirstWithPriority(repos, n, r)
      ensures WithPriority(repos, n) == Some(r)
    {
      FirstIsOne(repos, n, r);
    }
    PriorityIsThere(repos, n);
  }

  lemma PriorityIsThere(repos: seq<Repo>, n: int)
    ensures WithPriority(repos, n).Some? ==> !NoPriority(repos, n)
  {
    if WithPriority(repos, n).Some? {
      assert WithPriority(repos, n).value in repos;
    }
  }

  predicate NoPriority(repos: seq<Repo>, n: int) {
    forall r :: r in repos ==> r.priority != n
  }

  lemma FirstIsOne(repos: seq<Repo>, n: int, r: Repo)
    requires FirstWithPriority(repos, n, r)
    ensures WithPriority(repos, n) == Some(r)
  {
    var i :| 0 <= i < |repos| && repos[i] == r && r.priority == n && forall j :: 0 <= j < i ==> repos[j].priority != n;
    assert WithPriority(repos, n).Some?;
    var q := WithPriority(repos, n).value;
    var k :| 0 <= k < |repos| && repos[k] == q && q.priority == n && forall j :: 0 <= j < k ==> repos[j].priority != n;
    assert i == k;
  }

  function RepoTarget(p: Params): string
    requires p.repos != []
  {
    var parts := Split(p.annotation);
    Resolved(p.repos, if |parts| >= 3 then parts[|parts| - 3] else "")
  }

  function Flag(name: string, value: string): string {
    name + value
  }

  lemma FlagIsInjective(name: string, a: string, b: string)
    ensures Flag(name, a) == Flag(name, b) ==> a == b
  {
    assert a == Flag(name, a)[|name|..] && b == Flag(name, b)[|name|..];
  }

  method PriorityRepo(repos: seq<Repo>) returns (best: Repo)
    requires repos != []
    ensures best == Default(repos)
  {
    best := repos[0];
    for i := 0 to |repos|
      invariant best == if i == 0 then repos[0] else Default(repos[..i])
    {
      if i > 0 {
        assert repos[..i + 1][..i] == repos[..i];
      }
      if repos[i].priority < best.priority {
        best := repos[i];
      }
    }
    assert repos[..|repos|] == repos;
  }

  method FindByPriority(repos: seq<Repo>, n: int) returns (found: Option<Repo>)
    ensures found == WithPriority(repos, n)
  {
    for i := 0 to |repos|
      invariant WithPriority(repos, n) == WithPriority(repos[i..], n)
    {
      if repos[i].priority == n {
        return Some(repos[i]);
      }
    }
    return None;
  }

  function WithTarget(repos: seq<Repo>, target: string): (r: Option<Repo>)
    ensures r.Some? <==> HasTarget(repos, target)
    ensures r.Some? ==> FirstWithTarget(repos, target, r.value)
    ensures r.Some? ==> r.value in repos && r.value.target == target
  {
    if repos == [] then None
    else if repos[0].target == target then Some(repos[0])
    else
      var r := WithTarget(repos[1..], target);
      assert r.Some? ==> FirstWithTarget(repos, target, r.value) by {
        if r.Some? {
          NoTargetBefore(repos, target, r.value);
        }
      }
      r
  }

  ghost predicate FirstWithTarget(repos: seq<Repo>, target: string, r: Repo) {
    exists i :: 0 <= i < |repos| && repos[i] == r && r.target == target
      && forall j :: 0 <= j < i ==> repos[j].target != target
  }

  lemma NoTargetBefore(repos: seq<Repo>, target: string, r: Repo)
    requires repos != [] && repos[0].target != target && FirstWithTarget(repos[1..], target, r)
    ensures FirstWithTarget(repos, target, r)
  {
    var rest := repos[1..];
    var i :| 0 <= i < |rest| && rest[i] == r && r.target == target
      && forall j :: 0 <= j < i ==> rest[j].target != target;
    assert repos[i + 1] == r;
    assert forall j :: 0 < j < i + 1 ==> repos[j] == rest[j - 1];
  }

  method FindByTarget(repos: seq<Repo>, target: string) returns (found: Option<Repo>)
    ensures found == WithTarget(repos, target)
  {
    for i := 0 to |repos|
      invariant WithTarget(repos, target) == WithTarget(repos[i..], target)
    {
      if repos[i].target == target {
        return Some(repos[i]);
      }
    }
    return None;
  }

  /** The `--repo` argument: the field is the third part from the end. A number that is no priority is still tried
      as a target. */
  method ConvertStringToRepoNameArgs(p: Params) returns (args: seq<string>)
    requires p.repos != []
    ensures args == [Flag("--repo=", RepoTarget(p))]
  {
    var parts := Split(p.annotation);
    if |parts| >= 3 {
      var identifier := parts[|parts| - 3];
      if identifier != "" {
        var num := ReadNumber(identifier);
        if num.Some? {
          var repo := FindByPriority(p.repos, num.value);
          if repo.Some? {
            return [Flag("--repo=", repo.value.target)];
          }
        }
        var repo := FindByTarget(p.repos, identifier);
        if repo.Some? {
          return [Flag("--repo=", repo.value.target)];
        }
      }
    }
    var priorityRepo := PriorityRepo(p.repos);
    return [Flag("--repo=", priorityRepo.target)];
  }

  /** The repository whose environment a task gets: the field is the first of exactly three parts. A number that is no
      priority is not tried as a target. */
  function Selected(p: Params): Repo
    requires p.repos != []
  {
    var parts := Split(p.annotation);
    if |parts| == 3 && parts[0] != "" then
      var chosen := if ReadNumber(parts[0]).Some? then WithPriority(p.repos, ReadNumber(parts[0]).value)
                    else WithTarget(p.repos, parts[0]);
      if chosen.Some? then chosen.value else Default(p.repos)
    else Default(p.repos)
  }

  method SelectRepository(p: Params) returns (repo: Repo)
    requires p.repos != []
    ensures repo == Selected(p)
  {
    var parts := Split(p.annotation);
    var priorityRepo := PriorityRepo(p.repos);
    if |parts| == 3 && parts[0] != "" {
      var num := ReadNumber(parts[0]);
      if num.Some? {
        var byPriority := FindByPriority(p.repos, num.value);
        if byPriority.Some? {
          return byPriority.value;
        }
        return priorityRepo;
      }
      var byTarget := FindByTarget(p.repos, parts[0]);
      if byTarget.Some? {
        return byTarget.value;
      }
      return priorityRepo;
    }
    return priorityRepo;
  }

  /** The field is a number that is nobody's priority, and the target of a repository other than the default. */
  predicate NumberedTarget(repos: seq<Repo>, field: string)
    requires repos != []
  {
    && field != "" && ReadNumber(field).Some? && WithPriority(repos, ReadNumber(field).value) == None
    && HasTarget(repos, field) && field != Default(repos).target
  }

  /** The field is the priority of a repository whose target is not the default's, or else the target of a repository
      other than the default. */
  predicate LeadsElsewhere(repos: seq<Repo>, field: string)
    requires repos != []
  {
    field != "" &&
    var byNumber := if ReadNumber(field) == None then None else WithPriority(repos, ReadNumber(field).value);
    if byNumber.Some? then byNumber.value.target != Default(repos).target
    else HasTarget(repos, field) && field != Default(repos).target
  }

  /** With exactly three parts the repository field is no numbered target; with more, the third part from the end leads
      nowhere else than to the default repository, which is what the second reading then stays with. */
  predicate Unambiguous(p: Params)
    requires p.repos != []
  {
    var parts := Split(p.annotation);
    && (|parts| == 3 ==> !NumberedTarget(p.repos, parts[0]))
    && (|parts| > 3 ==> !LeadsElsewhere(p.repos, parts[|parts| - 3]))
  }

  lemma ResolvesToDefaultExactly(repos: seq<Repo>, field: string)
    requires repos != []
    ensures Resolved(repos, field) == Default(repos).target <==> !LeadsElsewhere(repos, field)
  {
  }

  /** The two readings of an annotation name the same target exactly when it is unambiguous. */
  lemma RepositoryReadingsAgree(p: Params)
    requires p.repos != []
    ensures RepoTarget(p) == Selected(p).target <==> Unambiguous(p)
  {
    var parts := Split(p.annotation);
    if |parts| > 3 {
      ResolvesToDefaultExactly(p.repos, parts[|parts| - 3]);
    }
  }

  /** Two repositories, the second with a target that is a number, and an annotation that names it. */
  const NUMBERED := Params([Repo("a", 1, []), Repo("7", 2, [])], "n", "data", "7||x", "t")

  lemma NumberedParts()
    ensures Split(NUMBERED.annotation) == ["7", "", "x"]
  {
    assert "7||x" == "7" + [PIPE] + ("" + [PIPE] + "x");
    SplitAfterPipe("7", "" + [PIPE] + "x");
    SplitAfterPipe("", "x");
    SplitWithoutPipe("x");
  }

  /** The job is told to work on the repository named by the number, with the environment of the other one. */
  lemma NumberedTargetIsMisread()
    ensures RepoTarget(NUMBERED) == "7" && Selected(NUMBERED).target == "a"
  {
    var repos := NUMBERED.repos;
    NumberedParts();
    NumberedLookups();
    assert ReadNumber("7") == Some(7) by {
      ReadNumberOfDecimal(7, "");
      assert Decimal(7) + "" == "7";
    }
    assert repos[1] in repos;
  }

  lemma NumberedLookups()
    ensures Default(NUMBERED.repos) == NUMBERED.repos[0] && WithPriority(NUMBERED.repos, 7) == None
  {
    var repos := NUMBERED.repos;
    assert repos[..1] == [repos[0]] && Default(repos[..1]) == repos[0];
    assert repos[1..][1..] == [];
  }

  lemma SelectedIsThere(p: Params)
    requires p.repos != []
    ensures Selected(p) in p.repos
  {
    var i := DefaultIsFirstLeast(p.repos);
    assert p.repos[i] in p.repos;
  }

  /* ---- the other arguments ---- */

  predicate IsLatest(name: string) {
    name == "latest" || name == "true" || name == "now" || name == ""
  }

  function Host(p: Params): string {
    var parts := Split(p.annotation);
    if |parts| >= 2 && parts[|parts| - 2] != "" then parts[|parts| - 2] else p.pvcNamespace + "-" + p.pvcName
  }

  function NameArgs(p: Params): seq<string> {
    var parts := Split(p.annotation);
    var name := if |parts| > 1 then parts[|parts| - 1] else p.annotation;
    if IsLatest(name) then ["latest"]
    else if |parts| > 1 then ["--tag", Flag("name=", name), "latest"]
    else [name]
  }

  function BackupName(p: Params): string {
    var parts := Split(p.annotation);
    var name := parts[|parts| - 1];
    if IsLatest(name) then p.taskName else name
  }

  function RestoreArgs(p: Params): seq<string>
    requires p.repos != []
  {
    ["restore", Flag("--repo=", RepoTarget(p)), Flag("--host=", Host(p))] + NameArgs(p) + ["--target", "."]
  }

  function BackupArgs(p: Params): seq<string>
    requires p.repos != []
  {
    ["backup", Flag("--repo=", RepoTarget(p)), Flag("--host=", Host(p)), "--tag", Flag("name=", BackupName(p)),
     MOUNT_PATH]
  }

  method MakeRestoreArgs(p: Params) returns (args: seq<string>)
    requires p.repos != []
    ensures args == RestoreArgs(p)
  {
    args := ["restore"];
    var repo := ConvertStringToRepoNameArgs(p);
    args := args + repo;
    args := args + [Flag("--host=", Host(p))];
    args := args + NameArgs(p);
    args := args + ["--target", "."];
  }

  method MakeBackupArgs(p: Params) returns (args: seq<string>)
    requires p.repos != []
    ensures args == BackupArgs(p)
  {
    args := ["backup"];
    var repo := ConvertStringToRepoNameArgs(p);
    args := args + repo;
    args := args + [Flag("--host=", Host(p))];
    args := args + ["--tag", Flag("name=", BackupName(p))];
    args := args + [MOUNT_PATH];
  }

  /* ---- what an annotation asks for, by its form ---- */

  predicate Plain(s: string) {
    PIPE !in s
  }

  /** The words for the latest snapshot. */
  predicate MeansLatest(s: string) {
    s in {"latest", "true", "now", ""}
  }

  /** An annotation without a pipe: the default repository, the claim itself, and the snapshot of this id, or the latest
      one; a backup is named after the annotation, or after the task. */
  lemma BareAnnotation(p: Params, id: string)
    requires p.repos != [] && Plain(id)
    ensures var q := p.(annotation := id);
      var repo, host := "--repo=" + Default(p.repos).target, "--host=" + (p.pvcNamespace + "-" + p.pvcName);
      && RestoreArgs(q) == ["restore", repo, host, if MeansLatest(id) then "latest" else id, "--target", "."]
      && BackupArgs(q) ==
         ["backup", repo, host, "--tag", "name=" + (if MeansLatest(id) then p.taskName else id), "/data"]
  {
    SplitWithoutPipe(id);
  }

  /** Different snapshot ids make different restores. */
  lemma SnapshotsAreTold(p: Params, id: string, other: string)
    requires p.repos != [] && Plain(id) && Plain(other) && !MeansLatest(id) && id != other
    ensures RestoreArgs(p.(annotation := id)) != RestoreArgs(p.(annotation := other))
  {
    BareAnnotation(p, id);
    BareAnnotation(p, other);
    assert RestoreArgs(p.(annotation := id))[3] == id;
    assert RestoreArgs(p.(annotation := other))[3] != id;
  }

  /** The snapshots a restore by name selects. */
  function ByName(name: string): seq<string> {
    if MeansLatest(name) then ["latest"] else ["--tag", "name=" + name, "latest"]
  }

  /** With one pipe: host and name; an empty host is the claim itself. */
  lemma HostAndName(p: Params, host: string, name: string)
    requires p.repos != [] && Plain(host) && Plain(name)
    ensures var q := p.(annotation := host + [PIPE] + name);
      var repo := "--repo=" + Default(p.repos).target;
      var hostFlag := "--host=" + (if host == "" then p.pvcNamespace + "-" + p.pvcName else host);
      && RestoreArgs(q) == ["restore", repo, hostFlag] + ByName(name) + ["--target", "."]
      && BackupArgs(q) ==
         ["backup", repo, hostFlag, "--tag", "name=" + (if MeansLatest(name) then p.taskName else name), "/data"]
  {
    SplitWithoutPipe(name);
    SplitAfterPipe(host, name);
  }

  /** With two pipes or more: the last three parts are repository, host and name; what stands before them is ignored. */
  lemma RepositoryHostAndName(p: Params, front: seq<string>, repo: string, host: string, name: string)
    requires p.repos != [] && Plain(repo) && Plain(host) && Plain(name) && forall s :: s in front ==> Plain(s)
    ensures var q := p.(annotation := Join(front + [repo, host, name]));
      var repoFlag := "--repo=" + Resolved(p.repos, repo);
      var hostFlag := "--host=" + (if host == "" then p.pvcNamespace + "-" + p.pvcName else host);
      && RestoreArgs(q) == ["restore", repoFlag, hostFlag] + ByName(name) + ["--target", "."]
      && BackupArgs(q) ==
         ["backup", repoFlag, hostFlag, "--tag", "name=" + (if MeansLatest(name) then p.taskName else name), "/data"]
  {
    var parts := front + [repo, host, name];
    SplitJoin(parts);
    var n := |parts|;
    assert parts[n - 3] == repo && parts[n - 2] == host && parts[n - 1] == name;
  }

  /* ---- backup and restore ---- */

  /** What a scheduled backup of a claim to one repository is called with. */
  function Scheduled(repo: Repo, ns: string, name: string, task: string): Params {
    Params([repo], ns, name, "now", task)
  }

  /** What a user writes to restore that backup: the repository's priority, the claim it came from, the task. */
  function RestoreAnnotation(repo: Repo, ns: string, name: string, task: string): string {
    Decimal(repo.priority) + [PIPE] + (ns + "-" + name + [PIPE] + task)
  }

  /** The restore that looks up what a given backup wrote: same repository, same host, latest snapshot with its tag. */
  function Undoes(backup: seq<string>): seq<string>
    requires |backup| == 6
  {
    ["restore"] + backup[1..5] + ["latest", "--target", "."]
  }

  lemma SplitRestoreAnnotation(repo: Repo, ns: string, name: string, task: string)
    requires PIPE !in ns && PIPE !in name
    ensures Split(RestoreAnnotation(repo, ns, name, task)) == [Decimal(repo.priority), ns + "-" + name] + Split(task)
  {
    DecimalHasNoPipe(repo.priority);
    var host := ns + "-" + name;
    SplitAfterPipe(Decimal(repo.priority), host + [PIPE] + task);
    SplitAfterPipe(host, task);
    assert RestoreAnnotation(repo, ns, name, task) == Decimal(repo.priority) + [PIPE] + (host + [PIPE] + task);
    assert [Decimal(repo.priority)] + ([host] + Split(task)) == [Decimal(repo.priority), host] + Split(task);
  }

  lemma SplitOfName(task: string)
    ensures |Split(task)| == 1 <==> PIPE !in task
    ensures |Split(task)| == 1 ==> Split(task)[0] == task
  {
    if PIPE !in task {
      SplitWithoutPipe(task);
    } else {
      JoinSplit(task);
    }
  }

  lemma ScheduledBackup(repo: Repo, ns: string, name: string, task: string)
    ensures BackupArgs(Scheduled(repo, ns, name, task)) ==
      ["backup", Flag("--repo=", repo.target), Flag("--host=", ns + "-" + name), "--tag", Flag("name=", task),
       MOUNT_PATH]
  {
    SplitWithoutPipe("now");
  }

  lemma ArgsMatch(repo: string, host: string, names: seq<string>, backupRepo: string, backupHost: string, tag: string)
    ensures ["restore", repo, host] + names + ["--target", "."]
      == Undoes(["backup", backupRepo, backupHost, "--tag", tag, MOUNT_PATH])
      <==> repo == backupRepo && host == backupHost && names == ["--tag", tag, "latest"]
  {
    var backup := ["backup", backupRepo, backupHost, "--tag", tag, MOUNT_PATH];
    var wanted := ["--tag", tag, "latest"];
    var args := ["restore", repo, host] + names + ["--target", "."];
    assert Undoes(backup) == ["restore", backupRepo, backupHost] + wanted + ["--target", "."];
    assert args[1] == repo && args[2] == host && args[3..|args| - 2] == names;
    assert Undoes(backup)[1] == backupRepo && Undoes(backup)[2] == backupHost && Undoes(backup)[3..6] == wanted;
  }

  lemma NamesMatch(p: Params, tag: string)
    ensures var parts := Split(p.annotation);
      NameArgs(p) == ["--tag", Flag("name=", tag), "latest"] <==>
        |parts| > 1 && parts[|parts| - 1] == tag && !IsLatest(tag)
  {
    var parts := Split(p.annotation);
    FlagIsInjective("name=", parts[|parts| - 1], tag);
    var names := NameArgs(p);
    if |parts| > 1 && !IsLatest(parts[|parts| - 1]) {
      assert names[1] == Flag("name=", parts[|parts| - 1]);
    } else {
      assert |names| == 1;
    }
  }

  /** Restoring by priority, claim and task name selects exactly the snapshot a scheduled backup wrote, in whatever
      claim the restore runs, if and only if the task name has no pipe and is not a word for the latest snapshot, and
      the first repository with that priority has the backup's target. */
  lemma RestoreSelectsTheBackup(repos: seq<Repo>, repo: Repo, ns: string, name: string, task: string, target: Params)
    requires repo in repos && IsInt32(repo.priority) && PIPE !in ns && PIPE !in name
    requires target.repos == repos && target.annotation == RestoreAnnotation(repo, ns, name, task)
    ensures RestoreArgs(target) == Undoes(BackupArgs(Scheduled(repo, ns, name, task))) <==>
      && PIPE !in task && !IsLatest(task)
      && WithPriority(repos, repo.priority).Some? && WithPriority(repos, repo.priority).value.target == repo.target
  {
    var parts := Split(target.annotation);
    SplitRestoreAnnotation(repo, ns, name, task);
    SplitOfName(task);
    ScheduledBackup(repo, ns, name, task);
    ArgsMatch(Flag("--repo=", RepoTarget(target)), Flag("--host=", Host(target)), NameArgs(target),
              Flag("--repo=", repo.target), Flag("--host=", ns + "-" + name), Flag("name=", task));
    NamesMatch(target, task);
    assert parts[|parts| - 1] in parts;
    if PIPE !in task {
      PlainNameIsFound(repo, ns + "-" + name, task, target);
      FlagIsInjective("--repo=", RepoTarget(target), repo.target);
    }
  }

  lemma PlainNameIsFound(repo: Repo, host: string, task: string, target: Params)
    requires repo in target.repos && IsInt32(repo.priority) && host != ""
    requires Split(target.annotation) == [Decimal(repo.priority), host, task]
    ensures WithPriority(target.repos, repo.priority).Some?
    ensures Host(target) == host && RepoTarget(target) == WithPriority(target.repos, repo.priority).value.target
  {
    ReadNumberOfDecimal(repo.priority, "");
    assert Decimal(repo.priority) + "" == Decimal(repo.priority);
    DecimalHasNoPipe(repo.priority);
    PriorityIsTaken(target.repos, repo);
  }

  lemma PriorityIsTaken(repos: seq<Repo>, repo: Repo)
    requires repo in repos
    ensures WithPriority(repos, repo.priority).Some?
  {
  }

  /** A restore finds the manual backup that was made of the same claim with the same annotation if and only if the
      annotation has a pipe and its last part is no word for the latest snapshot. */
  lemma SameAnnotationFindsExactly(p: Params)
    requires p.repos != []
    ensures var parts := Split(p.annotation);
      RestoreArgs(p) == Undoes(BackupArgs(p)) <==> |parts| > 1 && !IsLatest(parts[|parts| - 1])
  {
    var parts := Split(p.annotation);
    var repo, host := Flag("--repo=", RepoTarget(p)), Flag("--host=", Host(p));
    ArgsMatch(repo, host, NameArgs(p), repo, host, Flag("name=", BackupName(p)));
    NamesMatch(p, BackupName(p));
    SplitOfName(p.annotation);
  }

  /** In particular a bare name is not looked up but taken for a snapshot id; with a pipe in front it finds the
      backup. */
  lemma NamedRestoreNeedsAPipe(p: Params, name: string)
    requires p.repos != [] && PIPE !in name && !IsLatest(name)
    ensures var backup := BackupArgs(p.(annotation := name));
      && RestoreArgs(p.(annotation := name)) != Undoes(backup)
      && RestoreArgs(p.(annotation := [PIPE] + name)) == Undoes(backup)
  {
    SplitWithoutPipe(name);
    SplitAfterPipe("", name);
    assert "" + [PIPE] + name == [PIPE] + name;
    SameAnnotationFindsExactly(p.(annotation := name));
    SameAnnotationFindsExactly(p.(annotation := [PIPE] + name));
    assert BackupArgs(p.(annotation := [PIPE] + name)) == BackupArgs(p.(annotation := name));
  }

  /* ---- environment ---- */

  /** The last entry of that name in a list. */
  function LastIn(env: seq<EnvVar>, name: string): Option<EnvVar> {
    if env == [] then None
    else if env[|env| - 1].name == name then Some(env[|env| - 1])
    else LastIn(env[..|env| - 1], name)
  }

  /** No later entry of the list has the name. */
  predicate IsLastIn(env: seq<EnvVar>, i: nat, name: string) {
    i < |env| && env[i].name == name && forall j :: i < j < |env| ==> env[j].name != name
  }

  lemma {:induction false} LastInIs(env: seq<EnvVar>, name: string)
    ensures LastIn(env, name) == None <==> forall e :: e in env ==> e.name != name
    ensures LastIn(env, name).Some? ==> exists i: nat :: IsLastIn(env, i, name) && env[i] == LastIn(env, name).value
  {
    if env != [] {
      var n := |env| - 1;
      LastInIs(env[..n], name);
      assert env == env[..n] + [env[n]];
      if env[n].name == name {
        assert IsLastIn(env, n, name);
      } else if LastIn(env[..n], name).Some? {
        var i: nat :| IsLastIn(env[..n], i, name) && env[..n][i] == LastIn(env[..n], name).value;
        assert IsLastIn(env, i, name);
      }
    }
  }

  /** The entry that counts: from the last list that has the name. */
  function Effective(lists: seq<seq<EnvVar>>, name: string): Option<EnvVar> {
    if lists == [] then None
    else
      var last := LastIn(lists[|lists| - 1], name);
      if last.Some? then last else Effective(lists[..|lists| - 1], name)
  }

  /** For every name the entry that counts, exactly once, and nothing else. */
  method MergeEnvs(lists: seq<seq<EnvVar>>) returns (merged: seq<EnvVar>)
    ensures forall e :: e in merged <==> Effective(lists, e.name) == Some(e)
    ensures forall i, j :: 0 <= i < j < |merged| ==> merged[i].name != merged[j].name
  {
    var envMap: map<string, EnvVar> := map[];
    for i := 0 to |lists|
      invariant MapsTo(envMap, lists[..i], [])
      invariant forall n :: n in envMap ==> envMap[n].name == n
    {
      for j := 0 to |lists[i]|
        invariant MapsTo(envMap, lists[..i], lists[i][..j])
        invariant forall n :: n in envMap ==> envMap[n].name == n
      {
        var e := lists[i][j];
        envMap := envMap[e.name := e];
        assert lists[i][..j + 1][..j] == lists[i][..j];
      }
      assert lists[i][..|lists[i]|] == lists[i];
      assert lists[..i + 1][..i] == lists[..i];
    }
    assert lists[..|lists|] == lists;

    merged := [];
    var names := envMap.Keys;
    while names != {}
      invariant names <= envMap.Keys
      invariant forall e :: e in merged <==> e.name in envMap && e.name !in names && envMap[e.name] == e
      invariant forall i, j :: 0 <= i < j < |merged| ==> merged[i].name != merged[j].name
    {
      var name :| name in names;
      names := names - {name};
      merged := merged + [envMap[name]];
    }
  }

  /** The map has the entry that counts in `done` followed by the entries of `current`. */
  ghost predicate MapsTo(envMap: map<string, EnvVar>, done: seq<seq<EnvVar>>, current: seq<EnvVar>) {
    forall name :: (if name in envMap then Some(envMap[name]) else None) ==
      var last := LastIn(current, name); if last.Some? then last else Effective(done, name)
  }

  /** A task's environment has a name's value from the selected repository if that defines it, else from the config. */
  lemma RepositoryOverridesConfig(config: seq<EnvVar>, repo: Repo, name: string)
    ensures Effective([config, repo.env], name) ==
      if LastIn(repo.env, name).Some? then LastIn(repo.env, name) else LastIn(config, name)
  {
    assert [config, repo.env][..1] == [config];
    assert Effective([config], name) == LastIn(config, name) by {
      assert [config][..0] == [];
    }
  }

  /** With distinct targets a task gets the environment of the very repository its `--repo` argument names, exactly when
      the annotation is unambiguous; each name has its value from there or else from the config. */
  lemma EnvironmentFitsTheRepo(p: Params, config: seq<EnvVar>, name: string) returns (repo: Repo)
    requires p.repos != []
    requires forall i, j :: 0 <= i < j < |p.repos| ==> p.repos[i].target != p.repos[j].target
    ensures repo in p.repos && repo.target == RepoTarget(p)
    ensures Selected(p) == repo <==> Unambiguous(p)
    ensures Unambiguous(p) ==>
      Effective([config, Selected(p).env], name) ==
      if LastIn(repo.env, name).Some? then LastIn(repo.env, name) else LastIn(config, name)
  {
    repo := TargetIsThere(p);
    SelectedIsThere(p);
    RepositoryReadingsAgree(p);
    RepositoryOverridesConfig(config, repo, name);
  }

  lemma TargetIsThere(p: Params) returns (repo: Repo)
    requires p.repos != []
    ensures repo in p.repos && repo.target == RepoTarget(p)
  {
    var parts := Split(p.annotation);
    var field := if |parts| >= 3 then parts[|parts| - 3] else "";
    var i := DefaultIsFirstLeast(p.repos);
    var byNumber := if field == "" || ReadNumber(field) == None then None
                    else WithPriority(p.repos, ReadNumber(field).value);
    if byNumber.Some? {
      repo := byNumber.value;
    } else if field != "" && HasTarget(p.repos, field) {
      repo :| repo in p.repos && repo.target == field;
    } else {
      repo := p.repos[i];
    }
  }
}
