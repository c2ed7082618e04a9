/** `Parse` from `pkg/parser/parser.go`: the streaming loop that decodes each
    `<update>` element, filters it, and hands it to a handler, stopping at the
    first error. The XML tokenizer is outside the model: its output is the
    sequence of `Item`s it would yield at the level the loop sees. */
module Parser {
  import opened Wrappers
  import opened Types
  import opened Errors
  import opened Filter

  /** One step of the token loop: an `<update>` start element together with
      what the element decoder reads from it, an `<update>` whose content the
      element decoder rejects as malformed XML, any other token (skipped), or
      a tokenizer failure. End of input is the end of the sequence. */
  datatype Item =
    | UpdateElement(raw: RawUpdate)
    | MalformedElement(msg: string)
    | OtherToken
    | BadToken(msg: string)

  /** What a handler call leaves behind: its state (output written, updates
      buffered) and its error, if it failed. A failed call keeps whatever it
      did before failing. */
  datatype Step<S> = Step(state: S, err: Option<Error>)

  /** The outcome of a run: the handler's final state, every update passed to
      the handler in call order, and the error returned, if any. */
  datatype Run<S> = Run(state: S, handled: seq<Update>, err: Option<Error>)

  /** `Parse`: decode, filter, handle, one element at a time; a token error, a
      decode error or a handler error ends the run and is returned. */
  function Parse<S>(items: seq<Item>, filter: FilterConfig, parseUrl: string -> Option<string>,
                    handler: (S, Update) -> Step<S>, s: S): (r: Run<S>)
    ensures forall i :: 0 <= i < |r.handled| ==> Admits(filter, r.handled[i])
    ensures |r.handled| <= |items|
    decreases |items|
  {
    if |items| == 0 then Run(s, [], None)
    else
      match items[0]
      case BadToken(msg) => Run(s, [], Some(TokenError(msg)))
      case MalformedElement(msg) => Run(s, [], Some(ElementError("update", BadXml(msg))))
      case OtherToken => Parse(items[1..], filter, parseUrl, handler, s)
      case UpdateElement(raw) =>
        match DecodeUpdate(raw, parseUrl)
        case Failure(e) => Run(s, [], Some(ElementError("update", e)))
        case Success(u) =>
          if !Keep(filter, u) then Parse(items[1..], filter, parseUrl, handler, s)
          else
            KeepIffAdmits(filter, u);
            var step := handler(s, u);
            if step.err.Some? then Run(step.state, [u], step.err)
            else
              var rest := Parse(items[1..], filter, parseUrl, handler, step.state);
              Run(rest.state, [u] + rest.handled, rest.err)
  }

  /** The decode stage on its own: every update decoded before the first
      token or element error, and that error. */
  datatype Decoding = Decoding(updates: seq<Update>, err: Option<Error>)

  function Decoded(items: seq<Item>, parseUrl: string -> Option<string>): (d: Decoding)
    ensures forall i :: 0 <= i < |d.updates| ==>
              d.updates[i].issued.date.Some? ==> Strconv.InInt64(d.updates[i].issued.date.value)
    decreases |items|
  {
    if |items| == 0 then Decoding([], None)
    else
      match items[0]
      case BadToken(msg) => Decoding([], Some(TokenError(msg)))
      case MalformedElement(msg) => Decoding([], Some(ElementError("update", BadXml(msg))))
      case OtherToken => Decoded(items[1..], parseUrl)
      case UpdateElement(raw) =>
        match DecodeUpdate(raw, parseUrl)
        case Failure(e) => Decoding([], Some(ElementError("update", e)))
        case Success(u) =>
          var rest := Decoded(items[1..], parseUrl);
          Decoding([u] + rest.updates, rest.err)
  }

  /** The filter stage on its own: the admitted updates, in input order. */
  function Kept(f: FilterConfig, us: seq<Update>): (r: seq<Update>)
    ensures forall i :: 0 <= i < |r| ==> Admits(f, r[i])
    ensures forall u :: u in us && Admits(f, u) ==> u in r
    ensures multiset(r) <= multiset(us)
    decreases |us|
  {
    if |us| == 0 then []
    else
      KeepIffAdmits(f, us[0]);
      var rest := Kept(f, us[1..]);
      assert us == [us[0]] + us[1..];
      if Keep(f, us[0]) then [us[0]] + rest else rest
  }

  /** The handler stage on its own: the handler over a list, in order, up to
      and including the first call that fails. */
  function Apply<S>(handler: (S, Update) -> Step<S>, s: S, us: seq<Update>): (r: Run<S>)
    ensures |r.handled| <= |us| && r.handled == us[..|r.handled|]
    ensures r.err.None? ==> r.handled == us
    ensures r.err.Some? ==> |r.handled| > 0
    decreases |us|
  {
    if |us| == 0 then Run(s, [], None)
    else
      var step := handler(s, us[0]);
      if step.err.Some? then Run(step.state, [us[0]], step.err)
      else
        var rest := Apply(handler, step.state, us[1..]);
        assert us == [us[0]] + us[1..];
        Run(rest.state, [us[0]] + rest.handled, rest.err)
  }

  /** Filtering one update keeps it exactly when the four rules admit it;
      with `KeptAppend` this fixes the stage as the in-order subsequence of
      admitted updates. */
  lemma KeptSingle(f: FilterConfig, u: Update)
    ensures Kept(f, [u]) == if Admits(f, u) then [u] else []
  {
    KeepIffAdmits(f, u);
    assert [u][1..] == [];
  }

  /** Filtering a concatenation filters each part. */
  lemma {:induction false} KeptAppend(f: FilterConfig, a: seq<Update>, b: seq<Update>)
    ensures Kept(f, a + b) == Kept(f, a) + Kept(f, b)
    decreases |a|
  {
    if |a| == 0 {
      assert a + b == b;
    } else {
      assert (a + b)[0] == a[0];
      assert (a + b)[1..] == a[1..] + b;
      KeptAppend(f, a[1..], b);
    }
  }

  /** Both loops at an `<update>` that decodes: `Parse` filters and handles
      it before going on, `Decoded` records it before going on. */
  lemma AtDecodedElement<S>(items: seq<Item>, f: FilterConfig, parseUrl: string -> Option<string>,
                            handler: (S, Update) -> Step<S>, s: S, u: Update)
    requires |items| > 0 && items[0].UpdateElement? && DecodeUpdate(items[0].raw, parseUrl) == Success(u)
    ensures Parse(items, f, parseUrl, handler, s) ==
              if !Keep(f, u) then Parse(items[1..], f, parseUrl, handler, s)
              else
                var step := handler(s, u);
                if step.err.Some? then Run(step.state, [u], step.err)
                else
                  var rest := Parse(items[1..], f, parseUrl, handler, step.state);
                  Run(rest.state, [u] + rest.handled, rest.err)
    ensures var rest := Decoded(items[1..], parseUrl);
            Decoded(items, parseUrl) == Decoding([u] + rest.updates, rest.err)
  {
  }

  /** Filtering a list with a first element: that element, if kept, then the rest filtered. */
  lemma KeptCons(f: FilterConfig, u: Update, rest: seq<Update>)
    ensures Kept(f, [u] + rest) == if Keep(f, u) then [u] + Kept(f, rest) else Kept(f, rest)
  {
    KeptAppend(f, [u], rest);
    KeepIffAdmits(f, u);
    KeptSingle(f, u);
  }

  /** The streaming loop is the three stages one after another: decode
      everything up to the first decode error, keep the admitted updates, run
      the handler over them; a handler error wins over a later decode error
      because it happens first. */
  lemma {:induction false} ParseIsDecodeFilterApply<S>(items: seq<Item>, f: FilterConfig,
      parseUrl: string -> Option<string>, handler: (S, Update) -> Step<S>, s: S)
    ensures var d := Decoded(items, parseUrl);
            var a := Apply(handler, s, Kept(f, d.updates));
            Parse(items, f, parseUrl, handler, s) == if a.err.Some? then a else Run(a.state, a.handled, d.err)
    decreases |items|
  {
    if |items| > 0 {
      match items[0]
      case BadToken(msg) =>
      case MalformedElement(msg) =>
      case OtherToken =>
        ParseIsDecodeFilterApply(items[1..], f, parseUrl, handler, s);
      case UpdateElement(raw) =>
        match DecodeUpdate(raw, parseUrl)
        case Failure(e) =>
        case Success(u) =>
          var rest := Decoded(items[1..], parseUrl);
          AtDecodedElement(items, f, parseUrl, handler, s, u);
          KeptCons(f, u, rest.updates);
          if !Keep(f, u) {
            ParseIsDecodeFilterApply(items[1..], f, parseUrl, handler, s);
          } else {
            var k := [u] + Kept(f, rest.updates);
            assert k[0] == u && k[1..] == Kept(f, rest.updates);
            var step := handler(s, u);
            if step.err.None? {
              ParseIsDecodeFilterApply(items[1..], f, parseUrl, handler, step.state);
            }
          }
    }
  }

  /** A run that returns no error handled exactly the admitted updates, in
      input order, and met no decode error. */
  lemma ParseHandlesKept<S>(items: seq<Item>, f: FilterConfig, parseUrl: string -> Option<string>,
                            handler: (S, Update) -> Step<S>, s: S)
    ensures var r := Parse(items, f, parseUrl, handler, s);
            var d := Decoded(items, parseUrl);
            r.err.None? ==> d.err.None? && r.handled == Kept(f, d.updates)
  {
    ParseIsDecodeFilterApply(items, f, parseUrl, handler, s);
  }

  /** Whatever the run's outcome, the handler saw an input-ordered prefix of
      the admitted decoded updates. */
  lemma ParseHandlesPrefixOfKept<S>(items: seq<Item>, f: FilterConfig, parseUrl: string -> Option<string>,
                                    handler: (S, Update) -> Step<S>, s: S)
    ensures var r := Parse(items, f, parseUrl, handler, s);
            var k := Kept(f, Decoded(items, parseUrl).updates);
            |r.handled| <= |k| && r.handled == k[..|r.handled|]
  {
    ParseIsDecodeFilterApply(items, f, parseUrl, handler, s);
  }

  /** When the handler fails on the k-th update it is given, the list run
      returns that error and has handled nothing after it. */
  lemma {:induction false} ApplyStopsAtFirstFailure<S>(handler: (S, Update) -> Step<S>, s: S, us: seq<Update>, k: nat)
    requires k < |us|
    requires Apply(handler, s, us[..k]).err.None?
    requires handler(Apply(handler, s, us[..k]).state, us[k]).err.Some?
    ensures Apply(handler, s, us).handled == us[..k + 1]
    ensures Apply(handler, s, us).err == handler(Apply(handler, s, us[..k]).state, us[k]).err
    ensures Apply(handler, s, us).state == handler(Apply(handler, s, us[..k]).state, us[k]).state
    decreases k
  {
    if k == 0 {
      assert us[..1] == [us[0]];
    } else {
      var step := handler(s, us[0]);
      assert us[..k][0] == us[0];
      assert us[..k][1..] == us[1..][..k - 1];
      assert step.err.None?;
      ApplyStopsAtFirstFailure(handler, step.state, us[1..], k - 1);
      assert us[..k + 1] == [us[0]] + us[1..][..k];
    }
  }

  /** Handler errors abort `Parse`: if the handler fails on the k-th admitted
      update, `Parse` returns that error and that update is the last one handled. */
  lemma ParseStopsAtHandlerError<S>(items: seq<Item>, f: FilterConfig, parseUrl: string -> Option<string>,
                                    handler: (S, Update) -> Step<S>, s: S, k: nat)
    requires k < |Kept(f, Decoded(items, parseUrl).updates)|
    requires Apply(handler, s, Kept(f, Decoded(items, parseUrl).updates)[..k]).err.None?
    requires handler(Apply(handler, s, Kept(f, Decoded(items, parseUrl).updates)[..k]).state,
                     Kept(f, Decoded(items, parseUrl).updates)[k]).err.Some?
    ensures var kept := Kept(f, Decoded(items, parseUrl).updates);
            var r := Parse(items, f, parseUrl, handler, s);
            r.handled == kept[..k + 1] &&
            r.err == handler(Apply(handler, s, kept[..k]).state, kept[k]).err
  {
    ParseIsDecodeFilterApply(items, f, parseUrl, handler, s);
    ApplyStopsAtFirstFailure(handler, s, Kept(f, Decoded(items, parseUrl).updates), k);
  }

  /** Decoding a stream in two parts: the second part only matters when the
      first ends without error. */
  lemma {:induction false} DecodedAppend(a: seq<Item>, b: seq<Item>, parseUrl: string -> Option<string>)
    ensures Decoded(a + b, parseUrl) ==
              var da := Decoded(a, parseUrl);
              if da.err.Some? then da
              else var db := Decoded(b, parseUrl); Decoding(da.updates + db.updates, db.err)
    decreases |a|
  {
    if |a| == 0 {
      assert a + b == b;
    } else {
      assert (a + b)[0] == a[0];
      assert (a + b)[1..] == a[1..] + b;
      DecodedAppend(a[1..], b, parseUrl);
    }
  }

  /** An `<update>` that fails to decode, a malformed date for one, ends the
      decode stage with that element's error: nothing from it or after it is
      ever decoded, so nothing from it or after it reaches the handler. */
  lemma DecodeErrorEndsStream(a: seq<Item>, raw: RawUpdate, b: seq<Item>, parseUrl: string -> Option<string>)
    requires Decoded(a, parseUrl).err.None?
    requires DecodeUpdate(raw, parseUrl).Failure?
    ensures Decoded(a + [UpdateElement(raw)] + b, parseUrl) ==
              Decoding(Decoded(a, parseUrl).updates, Some(ElementError("update", DecodeUpdate(raw, parseUrl).error)))
  {
    assert a + [UpdateElement(raw)] + b == a + ([UpdateElement(raw)] + b);
    DecodedAppend(a, [UpdateElement(raw)] + b, parseUrl);
    assert Decoded([UpdateElement(raw)] + b, parseUrl).updates == [];
  }

  /** An `<update>` holding malformed XML ends the decode stage the same way,
      with a "decoding element" error carrying the reader's message. */
  lemma MalformedElementEndsStream(a: seq<Item>, msg: string, b: seq<Item>, parseUrl: string -> Option<string>)
    requires Decoded(a, parseUrl).err.None?
    ensures Decoded(a + [MalformedElement(msg)] + b, parseUrl) ==
              Decoding(Decoded(a, parseUrl).updates, Some(ElementError("update", BadXml(msg))))
  {
    assert a + [MalformedElement(msg)] + b == a + ([MalformedElement(msg)] + b);
    DecodedAppend(a, [MalformedElement(msg)] + b, parseUrl);
    assert Decoded([MalformedElement(msg)] + b, parseUrl).updates == [];
  }
}
