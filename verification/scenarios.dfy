/** Concrete runs of the pipeline on small inputs: a type filter (the
    `--security` flag), an empty package list against an allow-list, a
    malformed date, and JSON requested together with a template. */
module Scenarios {
  import opened Wrappers
  import opened Strconv
  import opened Types
  import opened Errors
  import opened Filter
  import opened Parser
  import opened Output
  import opened Render
  import opened Times

  /** An `<update>` with only a type and a date attribute. */
  function Dated(updateType: string, date: string): RawUpdate {
    RawUpdate(updateType, "", "", "", "", "", Some(date), [], "", [])
  }

  /** What `Dated` decodes to when the date is the Unix time `ts`. */
  function DatedUpdate(updateType: string, ts: int): Update {
    Update(updateType, "", "", "", "", "", Issued(Some(ts)), [], "", [])
  }

  /** The date attribute of `Dated(_, FormatInt(ts))` decodes back to `ts`. */
  lemma DatedDecodes(updateType: string, ts: int, parseUrl: string -> Option<string>)
    requires InInt64(ts)
    ensures DecodeUpdate(Dated(updateType, FormatInt(ts)), parseUrl) == Success(DatedUpdate(updateType, ts))
  {
    FormatIntRoundTrip(ts);
  }

  /** Two elements that decode, decoded in order. */
  lemma DecodedPair(r1: RawUpdate, r2: RawUpdate, u1: Update, u2: Update, parseUrl: string -> Option<string>)
    requires DecodeUpdate(r1, parseUrl) == Success(u1) && DecodeUpdate(r2, parseUrl) == Success(u2)
    ensures Decoded([UpdateElement(r1), UpdateElement(r2)], parseUrl) == Decoding([u1, u2], None)
  {
    var items := [UpdateElement(r1), UpdateElement(r2)];
    assert items[1..] == [UpdateElement(r2)];
    assert items[1..][1..] == [];
    assert Decoded(items[1..], parseUrl) == Decoding([u2], None);
  }

  /** Two updates, filtered one at a time. */
  lemma KeptPair(f: FilterConfig, u1: Update, u2: Update)
    ensures Kept(f, [u1, u2]) == (if Admits(f, u1) then [u1] else []) + (if Admits(f, u2) then [u2] else [])
  {
    assert [u1, u2] == [u1] + [u2];
    KeptAppend(f, [u1], [u2]);
    KeptSingle(f, u1);
    KeptSingle(f, u2);
  }

  /** A security update inside the window and a bugfix, filtered to security
      updates from the epoch on: the handler sees only the first. */
  lemma TypeFilterKeepsMatching<S>(t1: int, t2: int, before: Instant, parseUrl: string -> Option<string>,
                                   handler: (S, Update) -> Step<S>, s: S)
    requires 0 < t1 <= MaxExactUnix && Before(Unix(t1), before) && InInt64(t2)
    ensures var f := FilterConfig(before, Unix(0), "", [], "security");
            var items := [UpdateElement(Dated("security", FormatInt(t1))), UpdateElement(Dated("bugfix", FormatInt(t2)))];
            var r := Parse(items, f, parseUrl, handler, s);
            && Kept(f, Decoded(items, parseUrl).updates) == [DatedUpdate("security", t1)]
            && (r.err.None? ==> r.handled == [DatedUpdate("security", t1)])
  {
    var f := FilterConfig(before, Unix(0), "", [], "security");
    var items := [UpdateElement(Dated("security", FormatInt(t1))), UpdateElement(Dated("bugfix", FormatInt(t2)))];
    var u1 := DatedUpdate("security", t1);
    var u2 := DatedUpdate("bugfix", t2);
    DatedDecodes("security", t1, parseUrl);
    DatedDecodes("bugfix", t2, parseUrl);
    DecodedPair(Dated("security", FormatInt(t1)), Dated("bugfix", FormatInt(t2)), u1, u2, parseUrl);
    KeptPair(f, u1, u2);
    UnixOrder(t1, 0);
    assert Admits(f, u1) && !Admits(f, u2);
    ParseHandlesKept(items, f, parseUrl, handler, s);
  }

  /** A security update at 1700000000 and a bugfix at 1700000100 (their date
      attributes are the decimal texts of those times), filtered to security
      updates with no after-date: the handler sees only the first. */
  lemma SecurityOnly<S>(before: Instant, parseUrl: string -> Option<string>, handler: (S, Update) -> Step<S>, s: S)
    requires Before(Unix(1700000000), before)
    ensures var f := FilterConfig(before, Unix(0), "", [], "security");
            var items := [UpdateElement(Dated("security", FormatInt(1700000000))),
                          UpdateElement(Dated("bugfix", FormatInt(1700000100)))];
            var r := Parse(items, f, parseUrl, handler, s);
            r.err.None? ==> r.handled == [DatedUpdate("security", 1700000000)]
  {
    TypeFilterKeepsMatching(1700000000, 1700000100, before, parseUrl, handler, s);
  }

  /** An update with no packages, against a non-empty allow-list, is never handled. */
  lemma EmptyPackagesExcluded<S>(raw: RawUpdate, f: FilterConfig, parseUrl: string -> Option<string>,
                                 handler: (S, Update) -> Step<S>, s: S)
    requires raw.packages == [] && |f.pkgWhiteList| > 0
    ensures Parse([UpdateElement(raw)], f, parseUrl, handler, s).handled == []
  {
  }

  /** A `date="not-a-number"` attribute fails the element with a syntax error
      before the handler is called for it or for anything after it. */
  lemma MalformedDateStops<S>(raw: RawUpdate, rest: seq<Item>, f: FilterConfig, parseUrl: string -> Option<string>,
                              handler: (S, Update) -> Step<S>, s: S)
    requires raw.issuedDate == Some("not-a-number")
    ensures Parse([UpdateElement(raw)] + rest, f, parseUrl, handler, s) ==
              Run(s, [], Some(ElementError("update", BadDate("not-a-number", ErrSyntax))))
  {
    assert ParseInt("not-a-number") == Failure(ErrSyntax);
    assert ([UpdateElement(raw)] + rest)[0] == UpdateElement(raw);
  }

  /** JSON requested together with a custom template: the configuration is
      JSON with the warning raised, and the run writes no template section. */
  lemma JsonAndTemplate(name: string, host: OutputHost, items: seq<Item>, f: FilterConfig,
                        parseUrl: string -> Option<string>, sink: SinkModel)
    ensures var opts := [WithJsonOutput, WithTemplate(Some(Custom(name)))];
            var c := NewOutputConfig(opts, host);
            && c == Success(Resolved(OutputConfig(Stdout, None, Some(Custom(name)), true), true))
            && ParseToOutput(items, f, c.value.config, parseUrl, sink).sections == []
  {
    var opts := [WithJsonOutput, WithTemplate(Some(Custom(name)))];
    var c0 := OutputConfig(Stdout, None, None, false);
    assert opts[1..] == [WithTemplate(Some(Custom(name)))];
    assert opts[1..][1..] == [];
    var c1 := c0.(jsonOut := true);
    var c2 := c1.(template := Some(Custom(name)));
    assert ApplyOutputOpt(c0, WithJsonOutput, host) == Success(c1);
    assert ApplyOutputOpt(c1, WithTemplate(Some(Custom(name))), host) == Success(c2);
    assert ApplyOutputOpts(c2, opts[1..][1..], host) == Success(c2);
    assert ApplyOutputOpts(c1, opts[1..], host) == Success(c2);
    assert ApplyOutputOpts(c0, opts, host) == Success(c2);
  }
}
