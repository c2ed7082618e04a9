/** The filter half of `pkg/parser/parser.go`: the filter configuration, its
    options and their fold over the defaults, the Unix-timestamp date parser,
    the package allow-list loader, and the predicate that keeps or drops one
    update. */
module Filter {
  import opened Wrappers
  import opened Strconv
  import opened Strings
  import opened Types
  import opened Errors
  import opened Times

  /** `filterConfig`; both bounds are Go times. */
  datatype FilterConfig = FilterConfig(
    beforeDate: Instant,
    afterDate: Instant,
    dateFormat: string,
    pkgWhiteList: seq<string>,
    updateType: string)

  /** The `FilterOpt` constructors. */
  datatype FilterOpt =
    | WithDateFormat(format: string)
    | WithBeforeTime(before: string)
    | WithAfterTime(after: string)
    | WithPackagesFile(path: string)
    | WithUpdateType(uType: string)

  /** What the options need from outside the model: the whole text of a file
      (or why it could not be opened or scanned), and `time.Parse(layout, value)`
      (or its error message). */
  datatype FilterHost = FilterHost(
    readFile: string -> Result<string, string>,
    parseLayout: (string, string) -> Result<Instant, string>)

  /** `parseTime`: with no format the date is a base-10 int64 of Unix seconds,
      made a time by `time.Unix`; otherwise `time.Parse` decides. */
  function ParseTime(date: string, format: string, host: FilterHost): (r: Result<Instant, Error>)
    ensures format == "" ==> (r.Success? <==> IsDecimal(date) && InInt64(DecimalValue(date)))
    ensures format == "" && r.Success? ==> r.value == Unix(DecimalValue(date))
    ensures format == "" && r.Failure? ==> r.error.DateError? && r.error.value == date
    ensures format != "" ==> (r.Success? <==> host.parseLayout(format, date).Success?)
    ensures format != "" && r.Success? ==> r.value == host.parseLayout(format, date).value
    ensures format != "" && r.Failure? ==> r.error == LayoutError(host.parseLayout(format, date).error)
  {
    if format == "" then
      match ParseInt(date)
      case Failure(e) => Failure(DateError(date, e))
      case Success(i) => Success(Unix(i))
    else
      match host.parseLayout(format, date)
      case Failure(msg) => Failure(LayoutError(msg))
      case Success(t) => Success(t)
  }

  /** `readPackagesFile`: an empty path is no allow-list at all; otherwise each
      line of the file, trimmed of white space, contributes the text before its
      first '|' (the package name column of an OBS `.packages` file), blank
      lines included. */
  function ReadPackagesFile(path: string, host: FilterHost): (r: Result<seq<string>, Error>)
    ensures path == "" ==> r == Success([])
    ensures path != "" ==> (r.Success? <==> host.readFile(path).Success?)
    ensures path != "" && r.Failure? ==> r.error == PackagesError(path, host.readFile(path).error)
    ensures path != "" && r.Success? ==>
              var lines := ScanLines(host.readFile(path).value);
              |r.value| == |lines| && forall i :: 0 <= i < |lines| ==> r.value[i] == FirstField(TrimSpace(lines[i]))
  {
    if path == "" then Success([])
    else
      match host.readFile(path)
      case Failure(msg) => Failure(PackagesError(path, msg))
      case Success(content) =>
        var lines := ScanLines(content);
        Success(seq(|lines|, i requires 0 <= i < |lines| => FirstField(TrimSpace(lines[i]))))
  }

  /** A blank or all-white-space line contributes the empty name; a line with
      no '|' contributes all of its trimmed text. */
  lemma PackageLineRule(line: string)
    ensures AllSpace(line) ==> FirstField(TrimSpace(line)) == ""
    ensures '|' !in line ==> FirstField(TrimSpace(line)) == TrimSpace(line)
  {
    var t := TrimSpace(line);
    if '|' !in line {
      var lo, hi :| 0 <= lo <= hi <= |line| && t == line[lo..hi];
      assert forall k :: 0 <= k < |t| ==> t[k] == line[lo + k];
    }
  }

  /** The configuration `NewFilterConfig` starts from: the epoch as the lower
      bound and a caller-supplied upper bound (the code uses now plus 100 years). */
  function Defaults(defaultBefore: Instant): FilterConfig {
    FilterConfig(defaultBefore, Unix(0), "", [], "")
  }

  /** Running one option against the configuration built so far. Only the
      options that parse something can fail; each sets its own field only. */
  function ApplyFilterOpt(c: FilterConfig, o: FilterOpt, host: FilterHost): (r: Result<FilterConfig, Error>)
    ensures r.Failure? ==> o.WithBeforeTime? || o.WithAfterTime? || (o.WithPackagesFile? && o.path != "")
    ensures o.WithBeforeTime? ==> (r.Success? <==> ParseTime(o.before, c.dateFormat, host).Success?)
    ensures o.WithBeforeTime? && r.Success? ==> r.value.beforeDate == ParseTime(o.before, c.dateFormat, host).value
    ensures o.WithAfterTime? ==> (r.Success? <==> ParseTime(o.after, c.dateFormat, host).Success?)
    ensures o.WithAfterTime? && r.Success? ==> r.value.afterDate == ParseTime(o.after, c.dateFormat, host).value
    ensures (o.WithBeforeTime? || o.WithAfterTime?) && r.Failure? ==>
              r.error == ParseTime(if o.WithBeforeTime? then o.before else o.after, c.dateFormat, host).error
    ensures o.WithDateFormat? ==> r.Success? && r.value.dateFormat == o.format
    ensures o.WithUpdateType? ==> r.Success? && r.value.updateType == o.uType
    ensures o.WithPackagesFile? ==> (r.Success? <==> ReadPackagesFile(o.path, host).Success?)
    ensures o.WithPackagesFile? && r.Success? ==> r.value.pkgWhiteList == ReadPackagesFile(o.path, host).value
    ensures o.WithPackagesFile? && r.Failure? ==> r.error == ReadPackagesFile(o.path, host).error
    ensures r.Success? && !o.WithBeforeTime? ==> r.value.beforeDate == c.beforeDate
    ensures r.Success? && !o.WithAfterTime? ==> r.value.afterDate == c.afterDate
    ensures r.Success? && !o.WithDateFormat? ==> r.value.dateFormat == c.dateFormat
    ensures r.Success? && !o.WithPackagesFile? ==> r.value.pkgWhiteList == c.pkgWhiteList
    ensures r.Success? && !o.WithUpdateType? ==> r.value.updateType == c.updateType
  {
    match o
    case WithDateFormat(format) => Success(c.(dateFormat := format))
    case WithBeforeTime(before) =>
      (match ParseTime(before, c.dateFormat, host)
       case Failure(e) => Failure(e)
       case Success(t) => Success(c.(beforeDate := t)))
    case WithAfterTime(after) =>
      (match ParseTime(after, c.dateFormat, host)
       case Failure(e) => Failure(e)
       case Success(t) => Success(c.(afterDate := t)))
    case WithPackagesFile(path) =>
      (match ReadPackagesFile(path, host)
       case Failure(e) => Failure(e)
       case Success(pkgs) => Success(c.(pkgWhiteList := pkgs)))
    case WithUpdateType(uType) => Success(c.(updateType := uType))
  }

  /** The option loop of `NewFilterConfig`: options run in order, each on the
      result of the ones before it, and the first failure is the result. */
  function ApplyFilterOpts(c: FilterConfig, opts: seq<FilterOpt>, host: FilterHost): (r: Result<FilterConfig, Error>)
    ensures (forall i :: 0 <= i < |opts| ==>
               opts[i].WithUpdateType? || opts[i].WithDateFormat? || (opts[i].WithPackagesFile? && opts[i].path == "")) ==>
              r.Success?
    ensures r.Success? && (forall i :: 0 <= i < |opts| ==> !opts[i].WithDateFormat?) ==> r.value.dateFormat == c.dateFormat
    ensures r.Success? && (forall i :: 0 <= i < |opts| ==> !opts[i].WithAfterTime?) ==> r.value.afterDate == c.afterDate
    ensures r.Success? && (forall i :: 0 <= i < |opts| ==> !opts[i].WithBeforeTime?) ==> r.value.beforeDate == c.beforeDate
    ensures r.Success? && (forall i :: 0 <= i < |opts| ==> !opts[i].WithUpdateType?) ==> r.value.updateType == c.updateType
    ensures r.Success? && (forall i :: 0 <= i < |opts| ==> !opts[i].WithPackagesFile?) ==> r.value.pkgWhiteList == c.pkgWhiteList
    decreases |opts|
  {
    if |opts| == 0 then Success(c)
    else
      match ApplyFilterOpt(c, opts[0], host)
      case Failure(e) => Failure(e)
      case Success(c') => ApplyFilterOpts(c', opts[1..], host)
  }

  /** `NewFilterConfig`, with the default upper bound as a parameter. */
  function NewFilterConfig(opts: seq<FilterOpt>, defaultBefore: Instant, host: FilterHost): (r: Result<FilterConfig, Error>)
    ensures opts == [] ==> r == Success(FilterConfig(defaultBefore, Unix(0), "", [], ""))
    ensures r.Success? && (forall i :: 0 <= i < |opts| ==> !opts[i].WithAfterTime?) ==> r.value.afterDate == Unix(0)
    ensures r.Success? && (forall i :: 0 <= i < |opts| ==> !opts[i].WithDateFormat?) ==> r.value.dateFormat == ""
    ensures r.Success? && (forall i :: 0 <= i < |opts| ==> !opts[i].WithBeforeTime?) ==> r.value.beforeDate == defaultBefore
    ensures r.Success? && (forall i :: 0 <= i < |opts| ==> !opts[i].WithUpdateType?) ==> r.value.updateType == ""
    ensures r.Success? && (forall i :: 0 <= i < |opts| ==> !opts[i].WithPackagesFile?) ==> r.value.pkgWhiteList == []
  {
    ApplyFilterOpts(Defaults(defaultBefore), opts, host)
  }

  /** Running a list of options in two parts: the second part starts from what
      the first built, so a later option overwrites the field an earlier one set. */
  lemma {:induction false} ApplyFilterOptsAppend(c: FilterConfig, a: seq<FilterOpt>, b: seq<FilterOpt>, host: FilterHost)
    ensures ApplyFilterOpts(c, a + b, host) ==
              match ApplyFilterOpts(c, a, host)
              case Failure(e) => Failure(e)
              case Success(c') => ApplyFilterOpts(c', b, host)
    decreases |a|
  {
    if |a| == 0 {
      assert a + b == b;
    } else {
      assert (a + b)[0] == a[0];
      assert (a + b)[1..] == a[1..] + b;
      match ApplyFilterOpt(c, a[0], host)
      case Failure(e) =>
      case Success(c') => ApplyFilterOptsAppend(c', a[1..], b, host);
    }
  }

  /** The first failing option decides the result; nothing after it runs. */
  lemma FirstFailingOption(c: FilterConfig, opts: seq<FilterOpt>, k: nat, host: FilterHost)
    requires k < |opts|
    requires ApplyFilterOpts(c, opts[..k], host).Success?
    requires ApplyFilterOpt(ApplyFilterOpts(c, opts[..k], host).value, opts[k], host).Failure?
    ensures ApplyFilterOpts(c, opts, host) == Failure(ApplyFilterOpt(ApplyFilterOpts(c, opts[..k], host).value, opts[k], host).error)
  {
    var pre := opts[..k];
    var post := opts[k..];
    assert opts == pre + post;
    ApplyFilterOptsAppend(c, pre, post, host);
    var ck := ApplyFilterOpts(c, pre, host).value;
    assert post[0] == opts[k];
    assert ApplyFilterOpts(ck, post, host) == Failure(ApplyFilterOpt(ck, opts[k], host).error);
  }

  /** The last option of a kind wins: an update-type option at the end sets the
      type whatever came before. */
  lemma LastUpdateTypeWins(c: FilterConfig, opts: seq<FilterOpt>, t: string, host: FilterHost)
    ensures ApplyFilterOpts(c, opts + [WithUpdateType(t)], host).Success? <==> ApplyFilterOpts(c, opts, host).Success?
    ensures ApplyFilterOpts(c, opts + [WithUpdateType(t)], host).Success? ==>
              ApplyFilterOpts(c, opts + [WithUpdateType(t)], host).value.updateType == t
  {
    ApplyFilterOptsAppend(c, opts, [WithUpdateType(t)], host);
  }

  /** Without a date-format option before it, a before-time option reads Unix
      seconds: it succeeds exactly on an int64 literal and sets that time. */
  lemma BeforeTimeWithoutFormat(opts: seq<FilterOpt>, before: string, defaultBefore: Instant, host: FilterHost)
    requires forall i :: 0 <= i < |opts| ==> !opts[i].WithDateFormat?
    requires NewFilterConfig(opts, defaultBefore, host).Success?
    ensures var r := NewFilterConfig(opts + [WithBeforeTime(before)], defaultBefore, host);
            && (r.Success? <==> IsDecimal(before) && InInt64(DecimalValue(before)))
            && (r.Success? ==> r.value.beforeDate == Unix(DecimalValue(before)))
  {
    var d := Defaults(defaultBefore);
    ApplyFilterOptsAppend(d, opts, [WithBeforeTime(before)], host);
    var c := ApplyFilterOpts(d, opts, host).value;
    assert c.dateFormat == "";
    assert ApplyFilterOpts(c, [WithBeforeTime(before)], host) == ApplyFilterOpt(c, WithBeforeTime(before), host);
  }

  /** Whether any package is named in the allow-list: the `for ... break` loop. */
  function AnyListed(pkgs: seq<Package>, list: seq<string>): (r: bool)
    ensures r <==> exists i :: 0 <= i < |pkgs| && pkgs[i].name in list
  {
    if |pkgs| == 0 then false
    else if pkgs[0].name in list then true
    else
      var r := AnyListed(pkgs[1..], list);
      assert forall i :: 1 <= i < |pkgs| ==> pkgs[i] == pkgs[1..][i - 1];
      r
  }

  /** The checks `Parse` makes on a decoded update, in the code's order; the
      date is compared as the time `time.Unix` made of it. */
  predicate Keep(f: FilterConfig, u: Update) {
    if f.updateType != "" && u.updateType != f.updateType then false
    else if u.issued.date.None? then false
    else if !InWindow(f, Unix(u.issued.date.value)) then false
    else
      var pkgMatch := AnyListed(u.packages, f.pkgWhiteList);
      |f.pkgWhiteList| == 0 || pkgMatch
  }

  /** `uDate.Before(filter.beforeDate) && uDate.After(filter.afterDate)`. */
  predicate InWindow(f: FilterConfig, uDate: Instant) {
    Before(uDate, f.beforeDate) && After(uDate, f.afterDate)
  }

  /** The four filter rules, each on its own. */
  predicate TypeRule(f: FilterConfig, u: Update) {
    f.updateType != "" ==> u.updateType == f.updateType
  }

  predicate DateRule(u: Update) {
    u.issued.date.Some?
  }

  /** The update's time lies strictly after the lower bound and strictly
      before the upper one, as Go orders times. */
  predicate WindowRule(f: FilterConfig, u: Update) {
    u.issued.date.Some? && After(Unix(u.issued.date.value), f.afterDate) && Before(Unix(u.issued.date.value), f.beforeDate)
  }

  predicate PackageRule(f: FilterConfig, u: Update) {
    |f.pkgWhiteList| == 0 || exists p :: p in u.packages && p.name in f.pkgWhiteList
  }

  /** An update is admitted when all four rules hold. */
  predicate Admits(f: FilterConfig, u: Update) {
    TypeRule(f, u) && DateRule(u) && WindowRule(f, u) && PackageRule(f, u)
  }

  /** The code's chain of checks is exactly the conjunction of the four rules. */
  lemma KeepIffAdmits(f: FilterConfig, u: Update)
    ensures Keep(f, u) <==> Admits(f, u)
  {
    if |f.pkgWhiteList| > 0 && PackageRule(f, u) {
      var p :| p in u.packages && p.name in f.pkgWhiteList;
      var i :| 0 <= i < |u.packages| && u.packages[i] == p;
    }
  }

  /** The window is strict on both ends: an update dated exactly on either
      bound is dropped. */
  lemma BoundsAreExcluded(f: FilterConfig, u: Update)
    requires u.issued.date.Some?
    requires Unix(u.issued.date.value) == f.afterDate || Unix(u.issued.date.value) == f.beforeDate
    ensures !Keep(f, u)
  {
    AfterIsConverse(f.afterDate, f.afterDate);
  }

  /** With both bounds given as Unix seconds and nothing near the top of the
      int64 range, the window is the open interval of the numbers. */
  lemma WindowOfUnixBounds(f: FilterConfig, u: Update, after: int, before: int)
    requires f.afterDate == Unix(after) && f.beforeDate == Unix(before)
    requires InInt64(after) && InInt64(before) && after <= MaxExactUnix && before <= MaxExactUnix
    requires u.issued.date.Some? && InInt64(u.issued.date.value) && u.issued.date.value <= MaxExactUnix
    ensures WindowRule(f, u) <==> after < u.issued.date.value < before
  {
    UnixOrder(u.issued.date.value, after);
    UnixOrder(u.issued.date.value, before);
  }

  /** Go's wrap-around in `time.Unix` reaches the filter: an upper bound of the
      largest int64 second comes out before 2023, so an update from then is
      dropped. */
  lemma LargestUpperBoundDrops(f: FilterConfig, u: Update)
    requires f.beforeDate == Unix(MaxInt64) && u.issued.date == Some(1700000000)
    ensures !Keep(f, u)
  {
    UnixWraps();
  }

  /** With a non-empty allow-list, an update without packages is dropped; with
      an empty one, the package rule admits everything. */
  lemma PackageListRule(f: FilterConfig, u: Update)
    ensures |f.pkgWhiteList| > 0 && |u.packages| == 0 ==> !Keep(f, u)
    ensures |f.pkgWhiteList| == 0 ==> (Keep(f, u) <==> TypeRule(f, u) && WindowRule(f, u))
  {
  }
}
