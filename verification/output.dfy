/** The output half of the configuration in `pkg/parser/parser.go`: the
    output configuration, its options, and `NewOutputConfig`'s choice between
    template and JSON rendering. */
module Output {
  import opened Wrappers
  import opened Errors

  /** Where the output goes. */
  datatype Sink = Stdout | Writer(name: string) | File(path: string)

  /** A compiled template exposing the `header`, `body`, `join` and `footer`
      sections: the built-in one, or one given by the caller or read from a file. */
  datatype Template = DefaultTemplate | Custom(name: string)

  /** `outputConfig`; `closeFile` is the file whose `Close` runs after
      rendering (Go's `close` callback), when one was opened. */
  datatype OutputConfig = OutputConfig(
    output: Sink,
    closeFile: Option<string>,
    template: Option<Template>,
    jsonOut: bool)

  /** The `OutputOpt` constructors. `WithTemplate` takes Go's template
      pointer, so it can also be given nil. */
  datatype OutputOpt =
    | WithJsonOutput
    | WithWriter(w: Sink)
    | WithOutputFile(path: string)
    | WithTemplate(t: Option<Template>)
    | WithTemplateFile(path: string)

  /** An option that leaves a template in the configuration. */
  predicate SetsTemplate(o: OutputOpt) {
    o.WithTemplateFile? || (o.WithTemplate? && o.t.Some?)
  }

  /** An option that takes the template out again: `WithTemplate(nil)`. */
  predicate ClearsTemplate(o: OutputOpt) {
    o.WithTemplate? && o.t.None?
  }

  /** What the options need from outside the model: `os.Create` (its error
      message, if it fails) and `template.ParseFiles` (the template, or its
      error message). */
  datatype OutputHost = OutputHost(
    createFile: string -> Option<string>,
    parseTemplateFile: string -> Result<Template, string>)

  /** Running one option; only creating a file and reading a template can fail. */
  function ApplyOutputOpt(c: OutputConfig, o: OutputOpt, host: OutputHost): (r: Result<OutputConfig, Error>)
    ensures r.Failure? ==> o.WithOutputFile? || o.WithTemplateFile?
    ensures o.WithJsonOutput? ==> r.Success? && r.value.jsonOut
    ensures r.Success? ==> r.value.jsonOut == (c.jsonOut || o.WithJsonOutput?)
    ensures o.WithWriter? ==> r.Success? && r.value.output == o.w
    ensures o.WithOutputFile? ==> (r.Success? <==> host.createFile(o.path).None?)
    ensures o.WithOutputFile? && r.Success? ==> r.value.output == File(o.path) && r.value.closeFile == Some(o.path)
    ensures o.WithOutputFile? && r.Failure? ==> r.error == CreateError(o.path, host.createFile(o.path).value)
    ensures o.WithTemplate? ==> r.Success? && r.value.template == o.t
    ensures o.WithTemplateFile? ==> (r.Success? <==> host.parseTemplateFile(o.path).Success?)
    ensures o.WithTemplateFile? && r.Success? ==> r.value.template == Some(host.parseTemplateFile(o.path).value)
    ensures o.WithTemplateFile? && r.Failure? ==> r.error == TemplateError(o.path, host.parseTemplateFile(o.path).error)
    ensures r.Success? && !o.WithTemplate? && !o.WithTemplateFile? ==> r.value.template == c.template
    ensures r.Success? && !o.WithWriter? && !o.WithOutputFile? ==> r.value.output == c.output
    ensures r.Success? && !o.WithOutputFile? ==> r.value.closeFile == c.closeFile
  {
    match o
    case WithJsonOutput => Success(c.(jsonOut := true))
    case WithWriter(w) => Success(c.(output := w))
    case WithOutputFile(path) =>
      (match host.createFile(path)
       case Some(msg) => Failure(CreateError(path, msg))
       case None => Success(c.(output := File(path), closeFile := Some(path))))
    case WithTemplate(t) => Success(c.(template := t))
    case WithTemplateFile(path) =>
      (match host.parseTemplateFile(path)
       case Failure(msg) => Failure(TemplateError(path, msg))
       case Success(t) => Success(c.(template := Some(t))))
  }

  /** The option loop of `NewOutputConfig`: in order, first failure wins. */
  function ApplyOutputOpts(c: OutputConfig, opts: seq<OutputOpt>, host: OutputHost): (r: Result<OutputConfig, Error>)
    ensures r.Success? ==> (r.value.jsonOut <==> c.jsonOut || exists i :: 0 <= i < |opts| && opts[i].WithJsonOutput?)
    ensures r.Success? && r.value.template.Some? ==>
              c.template.Some? || exists i :: 0 <= i < |opts| && SetsTemplate(opts[i])
    ensures r.Success? && (forall i :: 0 <= i < |opts| ==> !ClearsTemplate(opts[i])) ==>
              (r.value.template.Some? <==> c.template.Some? || exists i :: 0 <= i < |opts| && SetsTemplate(opts[i]))
    ensures r.Success? && (forall i :: 0 <= i < |opts| ==> !opts[i].WithTemplate? && !opts[i].WithTemplateFile?) ==>
              r.value.template == c.template
    ensures r.Success? && (forall i :: 0 <= i < |opts| ==> !opts[i].WithWriter? && !opts[i].WithOutputFile?) ==>
              r.value.output == c.output
    ensures r.Success? && (forall i :: 0 <= i < |opts| ==> !opts[i].WithOutputFile?) ==>
              r.value.closeFile == c.closeFile
    ensures r.Failure? ==> exists i :: 0 <= i < |opts| && (opts[i].WithOutputFile? || opts[i].WithTemplateFile?)
    decreases |opts|
  {
    if |opts| == 0 then Success(c)
    else
      match ApplyOutputOpt(c, opts[0], host)
      case Failure(e) => Failure(e)
      case Success(c') =>
        var r := ApplyOutputOpts(c', opts[1..], host);
        assert forall i :: 1 <= i < |opts| ==> opts[i] == opts[1..][i - 1];
        r
  }

  /** Running a list of options in two parts: the second part starts from what
      the first built. */
  lemma {:induction false} ApplyOutputOptsAppend(c: OutputConfig, a: seq<OutputOpt>, b: seq<OutputOpt>, host: OutputHost)
    ensures ApplyOutputOpts(c, a + b, host) ==
              match ApplyOutputOpts(c, a, host)
              case Failure(e) => Failure(e)
              case Success(c') => ApplyOutputOpts(c', b, host)
    decreases |a|
  {
    if |a| == 0 {
      assert a + b == b;
    } else {
      assert (a + b)[0] == a[0];
      assert (a + b)[1..] == a[1..] + b;
      match ApplyOutputOpt(c, a[0], host)
      case Failure(e) =>
      case Success(c') => ApplyOutputOptsAppend(c', a[1..], b, host);
    }
  }

  /** The last template option decides: after `WithTemplate(t)` and nothing
      else touching the template, the template is `t`, nil included. */
  lemma LastTemplateOptionWins(c: OutputConfig, pre: seq<OutputOpt>, t: Option<Template>, post: seq<OutputOpt>,
                               host: OutputHost)
    requires forall i :: 0 <= i < |post| ==> !post[i].WithTemplate? && !post[i].WithTemplateFile?
    ensures var r := ApplyOutputOpts(c, pre + [WithTemplate(t)] + post, host);
            r.Success? ==> r.value.template == t
  {
    ApplyOutputOptsAppend(c, pre + [WithTemplate(t)], post, host);
    ApplyOutputOptsAppend(c, pre, [WithTemplate(t)], host);
  }

  /** A configuration and whether the "json output defined, ignoring provided
      template" warning went to standard error. */
  datatype Resolved = Resolved(config: OutputConfig, warned: bool)

  /** The final step of `NewOutputConfig`: JSON wins over a template, with a
      warning; with neither, the built-in template is installed. */
  function ResolveStrategy(c: OutputConfig): (r: Resolved)
    ensures r.config.jsonOut == c.jsonOut
    ensures r.config.jsonOut || r.config.template.Some?
    ensures r.warned <==> c.jsonOut && c.template.Some?
    ensures c.template.Some? ==> r.config.template == c.template
    ensures c.template.None? && !c.jsonOut ==> r.config.template == Some(DefaultTemplate)
    ensures r.config.output == c.output && r.config.closeFile == c.closeFile
  {
    if c.template.Some? && c.jsonOut then Resolved(c, true)
    else if c.template.None? && !c.jsonOut then Resolved(c.(template := Some(DefaultTemplate)), false)
    else Resolved(c, false)
  }

  /** A configuration the renderer can run: JSON, or a template to execute. */
  predicate Renderable(c: OutputConfig) {
    c.jsonOut || c.template.Some?
  }

  /** `NewOutputConfig`: standard output, no template, no JSON, then the options,
      then the strategy choice. */
  function NewOutputConfig(opts: seq<OutputOpt>, host: OutputHost): (r: Result<Resolved, Error>)
    ensures r.Success? ==> Renderable(r.value.config)
    ensures r.Success? ==> (r.value.config.jsonOut <==> exists i :: 0 <= i < |opts| && opts[i].WithJsonOutput?)
    ensures r.Success? && r.value.warned ==>
              (exists i :: 0 <= i < |opts| && opts[i].WithJsonOutput?) &&
              (exists i :: 0 <= i < |opts| && SetsTemplate(opts[i]))
    ensures r.Success? && (forall i :: 0 <= i < |opts| ==> !ClearsTemplate(opts[i])) ==>
              (r.value.warned <==>
                (exists i :: 0 <= i < |opts| && opts[i].WithJsonOutput?) &&
                (exists i :: 0 <= i < |opts| && SetsTemplate(opts[i])))
    ensures r.Success? && (forall i :: 0 <= i < |opts| ==> !opts[i].WithOutputFile?) ==>
              r.value.config.closeFile.None?
    ensures r.Success? && (forall i :: 0 <= i < |opts| ==> !opts[i].WithWriter? && !opts[i].WithOutputFile?) ==>
              r.value.config.output == Stdout && r.value.config.closeFile.None?
    ensures r.Success? && (forall i :: 0 <= i < |opts| ==> !SetsTemplate(opts[i]) && !opts[i].WithJsonOutput?) ==>
              r.value.config.template == Some(DefaultTemplate)
    ensures r.Failure? ==> exists i :: 0 <= i < |opts| && (opts[i].WithOutputFile? || opts[i].WithTemplateFile?)
  {
    match ApplyOutputOpts(OutputConfig(Stdout, None, None, false), opts, host)
    case Failure(e) => Failure(e)
    case Success(c) => Success(ResolveStrategy(c))
  }

  /** A writer given after an output file redirects the output but the file
      is still the one closed at the end. */
  lemma WriterAfterFileStillClosesFile(path: string, w: Sink, host: OutputHost)
    requires host.createFile(path).None?
    ensures var r := NewOutputConfig([WithOutputFile(path), WithWriter(w)], host);
            r.Success? && r.value.config.output == w && r.value.config.closeFile == Some(path)
  {
    var c0 := OutputConfig(Stdout, None, None, false);
    var c1 := ApplyOutputOpt(c0, WithOutputFile(path), host).value;
    assert [WithOutputFile(path), WithWriter(w)][1..] == [WithWriter(w)];
    assert ApplyOutputOpts(c1, [WithWriter(w)], host) == Success(c1.(output := w));
  }

  /** A nil template after a custom one takes the custom one out again: JSON
      then runs without the warning, and without JSON the built-in template
      is installed. */
  lemma NilTemplateClearsEarlier(pre: seq<OutputOpt>, post: seq<OutputOpt>, host: OutputHost)
    requires forall i :: 0 <= i < |post| ==> !post[i].WithTemplate? && !post[i].WithTemplateFile?
    ensures var r := NewOutputConfig(pre + [WithTemplate(None)] + post, host);
            r.Success? ==> !r.value.warned && (!r.value.config.jsonOut ==> r.value.config.template == Some(DefaultTemplate))
  {
    LastTemplateOptionWins(OutputConfig(Stdout, None, None, false), pre, None, post, host);
  }
}
