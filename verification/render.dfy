/** `ParseToOutput` from `pkg/parser/parser.go`: the two rendering strategies
    driven by `Parse`, and the rule that decides which error surfaces when the
    output file is closed. Template execution is modelled by the sections it
    emits, in order; the text of each section is outside the model. */
module Render {
  import opened Wrappers
  import opened Types
  import opened Json
  import opened Errors
  import opened Filter
  import opened Parser
  import opened Output

  /** One executed template section: `header`, `body` for one update, `join`, `footer`. */
  datatype Section = Header | Body(u: Update) | Join | Footer

  /** The output sink, seen from the renderer, each as the error message it
      gives when it fails: executing a section given what was already written,
      `json.MarshalIndent` of the document (it validates what each field's
      own `MarshalJSON` returns, and the `href` one can return text that is
      not JSON), writing the document, and closing the output file. */
  datatype SinkModel = SinkModel(
    exec: (seq<Section>, Section) -> Option<string>,
    marshal: Value -> Option<string>,
    write: Value -> Option<string>,
    closeErr: Option<string>)

  /** `ExecuteTemplate` of one section: appended on success, nothing written on failure. */
  function Emit(exec: (seq<Section>, Section) -> Option<string>, out: seq<Section>, sec: Section): (r: Step<seq<Section>>)
    ensures r.err.None? <==> exec(out, sec).None?
    ensures r.err.None? ==> r.state == out + [sec]
    ensures r.err.Some? ==> r.state == out && r.err.value == WriteError(exec(out, sec).value)
  {
    match exec(out, sec)
    case Some(msg) => Step(out, Some(WriteError(msg)))
    case None => Step(out + [sec], None)
  }

  /** The template handler's state: the sections written and Go's `first` flag. */
  datatype TemplateState = TemplateState(out: seq<Section>, first: bool)

  /** The template handler: a `join` before every body but the first, then the body. */
  function TemplateStep(exec: (seq<Section>, Section) -> Option<string>, st: TemplateState, u: Update): (r: Step<TemplateState>)
    ensures st.out <= r.state.out
    ensures forall k :: |st.out| <= k < |r.state.out| ==> r.state.out[k] == Join || r.state.out[k] == Body(u)
  {
    if !st.first then
      var j := Emit(exec, st.out, Join);
      if j.err.Some? then Step(TemplateState(j.state, st.first), j.err)
      else
        var b := Emit(exec, j.state, Body(u));
        if b.err.Some? then Step(TemplateState(b.state, st.first), b.err)
        else Step(TemplateState(b.state, false), None)
    else
      var b := Emit(exec, st.out, Body(u));
      if b.err.Some? then Step(TemplateState(b.state, st.first), b.err)
      else Step(TemplateState(b.state, false), None)
  }

  function TemplateHandler(exec: (seq<Section>, Section) -> Option<string>): (TemplateState, Update) -> Step<TemplateState> {
    (st: TemplateState, u: Update) => TemplateStep(exec, st, u)
  }

  /** The bodies of the given updates with one `join` between each two
      consecutive ones: what the handler's `first` flag produces. */
  function Joined(us: seq<Update>): seq<Section> {
    if |us| == 0 then []
    else if |us| == 1 then [Body(us[0])]
    else Joined(us[..|us| - 1]) + [Join, Body(us[|us| - 1])]
  }

  /** The updates whose bodies a section list holds, in order. */
  function Bodies(secs: seq<Section>): seq<Update> {
    if |secs| == 0 then []
    else (if secs[0].Body? then [secs[0].u] else []) + Bodies(secs[1..])
  }

  /** Outcome of the template strategy: the sections written and the error returned. */
  datatype TextRun = TextRun(out: seq<Section>, err: Option<Error>)

  /** The template strategy: `header`, then `Parse` with the template handler,
      then `footer` only if nothing failed. */
  function RenderTemplate(items: seq<Item>, f: FilterConfig, parseUrl: string -> Option<string>,
                          exec: (seq<Section>, Section) -> Option<string>): (r: TextRun)
    ensures var d := Decoded(items, parseUrl);
            r.err.None? ==> d.err.None? && r.out == [Header] + Joined(Kept(f, d.updates)) + [Footer]
    ensures r.err.Some? ==> Footer !in r.out
    ensures |r.out| > 0 ==> r.out[0] == Header
  {
    var h := Emit(exec, [], Header);
    if h.err.Some? then TextRun(h.state, h.err)
    else
      var run := Parse(items, f, parseUrl, TemplateHandler(exec), TemplateState([Header], true));
      TemplateParseOutcome(items, f, parseUrl, exec);
      if run.err.Some? then TextRun(run.state.out, run.err)
      else
        var ft := Emit(exec, run.state.out, Footer);
        TextRun(ft.state, ft.err)
  }

  /** The template handler over a list, after the header: the output keeps
      the header first and gains only joins and bodies; when nothing fails it
      is the header and the updates' bodies, joined. */
  lemma TemplateApplyOutcome(exec: (seq<Section>, Section) -> Option<string>, us: seq<Update>)
    ensures var a := Apply(TemplateHandler(exec), TemplateState([Header], true), us);
            && |a.state.out| > 0 && a.state.out[0] == Header
            && Footer !in a.state.out
            && (a.err.None? ==> a.state.out == [Header] + Joined(us))
  {
    HeaderFirstNoFooter(exec, us);
    var none: seq<Update> := [];
    assert TemplateState([Header], true) == TemplateState([Header] + Joined(none), |none| == 0);
    TemplateRunShape(exec, [Header], none, us);
    assert none + us == us;
  }

  lemma HeaderFirstNoFooter(exec: (seq<Section>, Section) -> Option<string>, us: seq<Update>)
    ensures var out := Apply(TemplateHandler(exec), TemplateState([Header], true), us).state.out;
            |out| > 0 && out[0] == Header && Footer !in out
  {
    var st0 := TemplateState([Header], true);
    var out := Apply(TemplateHandler(exec), st0, us).state.out;
    TemplateRunExtends(exec, st0, us);
    assert [Header] <= out;
    assert out[0] == Header;
    forall k | 0 <= k < |out| ensures out[k] != Footer {
      if k >= 1 {
        assert out[k].Join? || out[k].Body?;
      }
    }
  }

  /** `Parse` with the template handler after the header: the same, for the
      kept updates, and no decode error when nothing fails. */
  lemma TemplateParseOutcome(items: seq<Item>, f: FilterConfig, parseUrl: string -> Option<string>,
                             exec: (seq<Section>, Section) -> Option<string>)
    ensures var run := Parse(items, f, parseUrl, TemplateHandler(exec), TemplateState([Header], true));
            var d := Decoded(items, parseUrl);
            && |run.state.out| > 0 && run.state.out[0] == Header
            && Footer !in run.state.out
            && (run.err.None? ==> d.err.None? && run.state.out == [Header] + Joined(Kept(f, d.updates)))
  {
    var st0 := TemplateState([Header], true);
    ParseIsDecodeFilterApply(items, f, parseUrl, TemplateHandler(exec), st0);
    TemplateApplyOutcome(exec, Kept(f, Decoded(items, parseUrl).updates));
  }

  /** Adding one update to the end adds a `join` (unless it is the first) and its body. */
  lemma JoinedSnoc(p: seq<Update>, u: Update)
    ensures Joined(p + [u]) == Joined(p) + (if |p| == 0 then [] else [Join]) + [Body(u)]
  {
    if |p| == 0 {
      assert p + [u] == [u];
    } else {
      JoinedLast(p + [u]);
      assert (p + [u])[..|p|] == p;
    }
  }

  /** Unfolding `Joined` at its last element. */
  lemma JoinedLast(q: seq<Update>)
    requires |q| > 1
    ensures Joined(q) == Joined(q[..|q| - 1]) + [Join] + [Body(q[|q| - 1])]
  {
    assert [Join, Body(q[|q| - 1])] == [Join] + [Body(q[|q| - 1])];
  }

  /** A run of the template handler that does not fail extends the output
      from "bodies of p, joined" to "bodies of p then us, joined". */
  lemma {:induction false} TemplateRunShape(exec: (seq<Section>, Section) -> Option<string>, o: seq<Section>,
                                            p: seq<Update>, us: seq<Update>)
    ensures var a := Apply(TemplateHandler(exec), TemplateState(o + Joined(p), |p| == 0), us);
            a.err.None? ==> a.state == TemplateState(o + Joined(p + us), |p + us| == 0)
    decreases |us|
  {
    if |us| == 0 {
      assert p + us == p;
    } else {
      var st := TemplateState(o + Joined(p), |p| == 0);
      var step := TemplateStep(exec, st, us[0]);
      assert TemplateHandler(exec)(st, us[0]) == step;
      if step.err.None? {
        JoinedSnoc(p, us[0]);
        assert step.state == TemplateState(o + Joined(p + [us[0]]), |p + [us[0]]| == 0);
        TemplateRunShape(exec, o, p + [us[0]], us[1..]);
        assert p + [us[0]] + us[1..] == p + us;
      }
    }
  }

  /** The template handler only ever appends joins and bodies. */
  lemma {:induction false} TemplateRunExtends(exec: (seq<Section>, Section) -> Option<string>, st: TemplateState,
                                              us: seq<Update>)
    ensures var a := Apply(TemplateHandler(exec), st, us);
            st.out <= a.state.out &&
            forall k :: |st.out| <= k < |a.state.out| ==> a.state.out[k].Join? || a.state.out[k].Body?
    decreases |us|
  {
    if |us| > 0 {
      var step := TemplateStep(exec, st, us[0]);
      assert TemplateHandler(exec)(st, us[0]) == step;
      if step.err.None? {
        TemplateRunExtends(exec, step.state, us[1..]);
      }
    }
  }

  /** Counting the sections of a joined list: n bodies, n - 1 joins (none when
      n is 0 or 1), no header, no footer. */
  lemma {:induction false} JoinedCounts(us: seq<Update>)
    ensures multiset(Joined(us))[Join] == if |us| == 0 then 0 else |us| - 1
    ensures multiset(Joined(us))[Header] == 0 && multiset(Joined(us))[Footer] == 0
    ensures |Joined(us)| == if |us| == 0 then 0 else 2 * |us| - 1
    decreases |us|
  {
    if |us| > 1 {
      var p := us[..|us| - 1];
      JoinedCounts(p);
      assert multiset(Joined(us)) == multiset(Joined(p)) + multiset([Join, Body(us[|us| - 1])]);
    }
  }

  /** Position by position: bodies at even positions, in input order, joins at odd ones. */
  lemma {:induction false} JoinedShape(us: seq<Update>)
    ensures forall k :: 0 <= k < |Joined(us)| ==>
              k / 2 < |us| && Joined(us)[k] == if k % 2 == 0 then Body(us[k / 2]) else Join
    decreases |us|
  {
    JoinedCounts(us);
    if |us| > 1 {
      var p := us[..|us| - 1];
      JoinedShape(p);
      JoinedCounts(p);
      forall k | 0 <= k < |Joined(us)|
        ensures k / 2 < |us| && Joined(us)[k] == if k % 2 == 0 then Body(us[k / 2]) else Join
      {
        if k < |Joined(p)| {
          assert Joined(us)[k] == Joined(p)[k];
          assert us[k / 2] == p[k / 2];
        }
      }
    }
  }

  lemma {:induction false} BodiesAppend(a: seq<Section>, b: seq<Section>)
    ensures Bodies(a + b) == Bodies(a) + Bodies(b)
    decreases |a|
  {
    if |a| == 0 {
      assert a + b == b;
    } else {
      var ab := a + b;
      assert ab[0] == a[0];
      assert ab[1..] == a[1..] + b;
      BodiesAppend(a[1..], b);
      assert Bodies(ab) == (if a[0].Body? then [a[0].u] else []) + Bodies(ab[1..]);
    }
  }

  lemma BodiesOfPair(x: Update)
    ensures Bodies([Body(x)]) == [x]
    ensures Bodies([Join, Body(x)]) == [x]
  {
    assert [Body(x)][1..] == [];
    assert [Join, Body(x)][1..] == [Body(x)];
  }

  /** The bodies of a joined list are the updates it was built from, in order. */
  lemma {:induction false} BodiesOfJoined(us: seq<Update>)
    ensures Bodies(Joined(us)) == us
    decreases |us|
  {
    if |us| == 1 {
      BodiesOfPair(us[0]);
      assert [us[0]] == us;
    } else if |us| > 1 {
      var p := us[..|us| - 1];
      var x := us[|us| - 1];
      BodiesOfJoined(p);
      BodiesAppend(Joined(p), [Join, Body(x)]);
      BodiesOfPair(x);
      assert us == p + [x];
    }
  }

  /** A joined list between a header and a footer: one of each, n - 1 joins,
      the n bodies in order. */
  lemma FramedCounts(us: seq<Update>)
    ensures var out := [Header] + Joined(us) + [Footer];
            && multiset(out)[Header] == 1
            && multiset(out)[Footer] == 1
            && multiset(out)[Join] == (if |us| == 0 then 0 else |us| - 1)
            && Bodies(out) == us
  {
    var j := Joined(us);
    JoinedCounts(us);
    FramedMultiset(j);
    FramedBodies(us);
  }

  lemma FramedMultiset(j: seq<Section>)
    ensures var m := multiset([Header] + j + [Footer]);
            && m[Header] == multiset(j)[Header] + 1
            && m[Footer] == multiset(j)[Footer] + 1
            && m[Join] == multiset(j)[Join]
  {
    assert multiset([Header] + j + [Footer]) == multiset([Header]) + multiset(j) + multiset([Footer]);
  }

  lemma FramedBodies(us: seq<Update>)
    ensures Bodies([Header] + Joined(us) + [Footer]) == us
  {
    var j := Joined(us);
    BodiesOfJoined(us);
    BodiesAppend([Header] + j, [Footer]);
    BodiesAppend([Header], j);
    assert [Header][1..] == [] && [Footer][1..] == [];
    assert Bodies([Header]) == [] && Bodies([Footer]) == [];
    assert [] + us + [] == us;
  }

  /** A successful template run writes one `header`, one body per kept update in
      input order, N - 1 `join`s for N kept updates (none for N <= 1), and one
      `footer`; with no kept updates that is just `header` then `footer`. */
  lemma TemplateSectionCounts(items: seq<Item>, f: FilterConfig, parseUrl: string -> Option<string>,
                              exec: (seq<Section>, Section) -> Option<string>)
    requires RenderTemplate(items, f, parseUrl, exec).err.None?
    ensures var out := RenderTemplate(items, f, parseUrl, exec).out;
            var kept := Kept(f, Decoded(items, parseUrl).updates);
            && multiset(out)[Header] == 1
            && multiset(out)[Footer] == 1
            && multiset(out)[Join] == (if |kept| == 0 then 0 else |kept| - 1)
            && Bodies(out) == kept
            && (|kept| == 0 ==> out == [Header, Footer])
  {
    var kept := Kept(f, Decoded(items, parseUrl).updates);
    FramedCounts(kept);
    if |kept| == 0 {
      assert [Header] + Joined(kept) + [Footer] == [Header, Footer];
    }
  }

  /** With a sink that never fails, the template strategy fails exactly when
      the input does not decode, and with that decode error. */
  lemma TemplateFailsOnlyOnDecode(items: seq<Item>, f: FilterConfig, parseUrl: string -> Option<string>)
    ensures var exec := (out: seq<Section>, sec: Section) => None;
            RenderTemplate(items, f, parseUrl, exec).err == Decoded(items, parseUrl).err
  {
    var exec := (out: seq<Section>, sec: Section) => None;
    var st0 := TemplateState([Header], true);
    ParseIsDecodeFilterApply(items, f, parseUrl, TemplateHandler(exec), st0);
    TemplateNeverFails(exec, st0, Kept(f, Decoded(items, parseUrl).updates));
  }

  lemma {:induction false} TemplateNeverFails(exec: (seq<Section>, Section) -> Option<string>, st: TemplateState,
                                              us: seq<Update>)
    requires forall out, sec :: exec(out, sec).None?
    ensures Apply(TemplateHandler(exec), st, us).err.None?
    decreases |us|
  {
    if |us| > 0 {
      var step := TemplateStep(exec, st, us[0]);
      assert TemplateHandler(exec)(st, us[0]) == step;
      TemplateNeverFails(exec, step.state, us[1..]);
    }
  }

  /** The JSON strategy's handler: append the update to the buffer. */
  function BufferHandler(): (seq<Update>, Update) -> Step<seq<Update>> {
    (buf: seq<Update>, u: Update) => Step(buf + [u], None)
  }

  /** The buffer holds exactly the updates the handler was given. */
  lemma {:induction false} BufferIsHandled(buf: seq<Update>, us: seq<Update>)
    ensures Apply(BufferHandler(), buf, us) == Run(buf + us, us, None)
    decreases |us|
  {
    if |us| == 0 {
      assert buf + us == buf;
    } else {
      assert BufferHandler()(buf, us[0]) == Step(buf + [us[0]], None);
      BufferIsHandled(buf + [us[0]], us[1..]);
      assert buf + [us[0]] + us[1..] == buf + us;
      assert [us[0]] + us[1..] == us;
    }
  }

  /** `Parse` with the buffering handler: the buffer and the handled list are
      the kept updates, and the error is the decode stage's. */
  lemma BufferParseOutcome(items: seq<Item>, f: FilterConfig, parseUrl: string -> Option<string>)
    ensures var d := Decoded(items, parseUrl);
            var kept := Kept(f, d.updates);
            Parse(items, f, parseUrl, BufferHandler(), []) == Run(kept, kept, d.err)
  {
    ParseIsDecodeFilterApply(items, f, parseUrl, BufferHandler(), []);
    BufferIsHandled([], Kept(f, Decoded(items, parseUrl).updates));
    assert [] + Kept(f, Decoded(items, parseUrl).updates) == Kept(f, Decoded(items, parseUrl).updates);
  }

  /** Outcome of the JSON strategy: the buffered updates, the document handed
      to the writer (if parsing and marshalling succeeded), and the error
      returned. */
  datatype JsonRun = JsonRun(buffer: seq<Update>, document: Option<Value>, err: Option<Error>)

  /** The JSON strategy: buffer every kept update, then marshal the whole
      array once and write it. Every buffered update has a date, so the date
      marshaller never meets a nil pointer. */
  function RenderJson(items: seq<Item>, f: FilterConfig, parseUrl: string -> Option<string>,
                      marshal: Value -> Option<string>, write: Value -> Option<string>): (r: JsonRun)
    ensures forall i :: 0 <= i < |r.buffer| ==> Admits(f, r.buffer[i])
    ensures var d := Decoded(items, parseUrl);
            var kept := Kept(f, d.updates);
            d.err.None? ==> r.buffer == kept
    ensures var d := Decoded(items, parseUrl);
            var kept := Kept(f, d.updates);
            r.err.None? ==> d.err.None? && r.document == Some(UpdatesJson(kept))
    ensures Decoded(items, parseUrl).err.Some? ==> r.err == Decoded(items, parseUrl).err && r.document.None?
    ensures var d := Decoded(items, parseUrl);
            var doc := UpdatesJson(Kept(f, d.updates));
            d.err.None? && marshal(doc).Some? ==> r.document.None? && r.err == Some(MarshalError(marshal(doc).value))
    ensures var d := Decoded(items, parseUrl);
            var doc := UpdatesJson(Kept(f, d.updates));
            d.err.None? && marshal(doc).None? ==> r.document == Some(doc)
    ensures r.document.Some? ==>
              && marshal(r.document.value).None?
              && (r.err.None? <==> write(r.document.value).None?)
              && (r.err.Some? ==> r.err.value == WriteError(write(r.document.value).value))
  {
    var run := Parse(items, f, parseUrl, BufferHandler(), []);
    BufferParseOutcome(items, f, parseUrl);
    if run.err.Some? then JsonRun(run.state, None, run.err)
    else
      var doc := UpdatesJson(run.state);
      match marshal(doc)
      case Some(msg) => JsonRun(run.state, None, Some(MarshalError(msg)))
      case None =>
        match write(doc)
        case Some(msg) => JsonRun(run.state, Some(doc), Some(WriteError(msg)))
        case None => JsonRun(run.state, Some(doc), None)
  }

  /** What `ParseToOutput` leaves: the sections written (template strategy),
      the document handed to the writer (JSON strategy), and the error returned. */
  datatype Rendered = Rendered(sections: seq<Section>, document: Option<Value>, err: Option<Error>)

  /** The strategy `ParseToOutput` runs for a configuration, before the output
      file is closed. A configuration with neither JSON nor a template would
      dereference a nil template in Go; `NewOutputConfig` never builds one. */
  function RunStrategy(items: seq<Item>, f: FilterConfig, out: OutputConfig, parseUrl: string -> Option<string>,
                       sink: SinkModel): (r: Rendered)
    requires Renderable(out)
    ensures out.jsonOut ==> r.sections == []
    ensures !out.jsonOut ==> r.document.None? && (r.err.Some? ==> Footer !in r.sections)
    ensures var kept := Kept(f, Decoded(items, parseUrl).updates);
            r.err.None? ==>
              Decoded(items, parseUrl).err.None? &&
              if out.jsonOut then r.document == Some(UpdatesJson(kept))
              else r.sections == [Header] + Joined(kept) + [Footer]
  {
    if !out.jsonOut then
      var t := RenderTemplate(items, f, parseUrl, sink.exec);
      Rendered(t.out, None, t.err)
    else
      var j := RenderJson(items, f, parseUrl, sink.marshal, sink.write);
      Rendered([], j.document, j.err)
  }

  /** `ParseToOutput`: the strategy, then, when an output file was opened, its
      close; a close error is returned only when nothing failed before it. */
  function ParseToOutput(items: seq<Item>, f: FilterConfig, out: OutputConfig, parseUrl: string -> Option<string>,
                         sink: SinkModel): (r: Rendered)
    requires Renderable(out)
    ensures var inner := RunStrategy(items, f, out, parseUrl, sink);
            && r.sections == inner.sections && r.document == inner.document
            && (inner.err.Some? ==> r.err == inner.err)
            && (inner.err.None? && out.closeFile.Some? ==> (r.err.None? <==> sink.closeErr.None?))
            && (inner.err.None? && out.closeFile.Some? && r.err.Some? ==> r.err.value == CloseError(sink.closeErr.value))
            && (out.closeFile.None? ==> r.err == inner.err)
  {
    var inner := RunStrategy(items, f, out, parseUrl, sink);
    if out.closeFile.None? then inner
    else if inner.err.None? && sink.closeErr.Some? then inner.(err := Some(CloseError(sink.closeErr.value)))
    else inner
  }

  /** End to end through `NewOutputConfig`: with JSON requested, a run that
      succeeds produced the JSON array of the kept updates, even when a template
      was also supplied. */
  lemma JsonWinsOverTemplate(opts: seq<OutputOpt>, host: OutputHost, items: seq<Item>, f: FilterConfig,
                             parseUrl: string -> Option<string>, sink: SinkModel)
    requires NewOutputConfig(opts, host).Success?
    requires exists i :: 0 <= i < |opts| && opts[i].WithJsonOutput?
    ensures var r := ParseToOutput(items, f, NewOutputConfig(opts, host).value.config, parseUrl, sink);
            r.sections == [] &&
            (r.err.None? ==> r.document == Some(UpdatesJson(Kept(f, Decoded(items, parseUrl).updates))))
  {
  }

  /** `ParseFileToOutput` as written: when the input file cannot be opened it
      returns `nil`, so the caller sees a run that succeeded and wrote nothing.
      Otherwise it runs `ParseToOutput` and then closes the input file, whose
      error surfaces only when nothing failed before it. `openErr` and
      `inputCloseErr` are the messages of `os.Open` and `Close`, if they fail. */
  function ParseFileToOutputAsWritten(path: string, openErr: Option<string>, inputCloseErr: Option<string>,
                                      items: seq<Item>, f: FilterConfig, out: OutputConfig,
                                      parseUrl: string -> Option<string>, sink: SinkModel): (r: Rendered)
    requires Renderable(out)
    ensures openErr.Some? ==> r == Rendered([], None, None)
    ensures openErr.None? ==>
              var inner := ParseToOutput(items, f, out, parseUrl, sink);
              && r.sections == inner.sections && r.document == inner.document
              && (r.err.None? <==> inner.err.None? && inputCloseErr.None?)
              && (inner.err.Some? ==> r.err == inner.err)
              && (inner.err.None? && r.err.Some? ==> r.err.value == CloseError(inputCloseErr.value))
  {
    if openErr.Some? then Rendered([], None, None)
    else
      var inner := ParseToOutput(items, f, out, parseUrl, sink);
      if inner.err.None? && inputCloseErr.Some? then inner.(err := Some(CloseError(inputCloseErr.value))) else inner
  }

  /** `ParseFileToOutput` as evidently intended: an open failure is returned. */
  function ParseFileToOutput(path: string, openErr: Option<string>, inputCloseErr: Option<string>,
                             items: seq<Item>, f: FilterConfig, out: OutputConfig,
                             parseUrl: string -> Option<string>, sink: SinkModel): (r: Rendered)
    requires Renderable(out)
    ensures openErr.Some? ==> r.err == Some(OpenError(path, openErr.value)) && r.sections == [] && r.document.None?
    ensures r.err.None? ==>
              openErr.None? && inputCloseErr.None? && Decoded(items, parseUrl).err.None?
              && ParseToOutput(items, f, out, parseUrl, sink).err.None?
  {
    if openErr.Some? then Rendered([], None, Some(OpenError(path, openErr.value)))
    else ParseFileToOutputAsWritten(path, openErr, inputCloseErr, items, f, out, parseUrl, sink)
  }

  /** The discrepancy: an input file that cannot be opened is reported as a
      successful empty run by the code as written, and as that open error by
      the corrected function. */
  lemma OpenFailureLooksLikeSuccess(path: string, msg: string, items: seq<Item>, f: FilterConfig,
                                    out: OutputConfig, parseUrl: string -> Option<string>, sink: SinkModel)
    requires Renderable(out)
    ensures && ParseFileToOutputAsWritten(path, Some(msg), None, items, f, out, parseUrl, sink).err.None?
            && ParseFileToOutput(path, Some(msg), None, items, f, out, parseUrl, sink).err == Some(OpenError(path, msg))
  {
  }
}
