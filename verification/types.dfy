/** The updateinfo record model (`pkg/types/updateinfo.go`): the shape of one
    `<update>` element, the two attribute coercions (decimal Unix date, URL),
    and the JSON projection `encoding/json` derives from the struct tags. */
module Types {
  import opened Wrappers
  import opened Strconv
  import opened Json

  /** The `<issued date="...">` child: the date is a pointer in Go, nil when
      the element or its attribute is missing. Dates are Unix seconds. */
  datatype Issued = Issued(date: Option<int>)

  /** One `<reference>`; `href` holds the canonical string of the parsed URL. */
  datatype Reference = Reference(href: string, id: string, title: string, refType: string)

  /** One `<package>` of the `<pkglist><collection>`. */
  datatype Package = Package(name: string, version: string, release: string, arch: string, filename: string)

  /** One `<update>` record; `updateType` is its `type` attribute. */
  datatype Update = Update(
    updateType: string,
    status: string,
    id: string,
    title: string,
    severity: string,
    release: string,
    issued: Issued,
    references: seq<Reference>,
    description: string,
    packages: seq<Package>)

  /** A `<reference>` as it stands in the document, before its `href` is parsed. */
  datatype RawReference = RawReference(href: string, id: string, title: string, refType: string)

  /** An `<update>` element as the XML reader delivers it, before the two custom
      attribute decoders run: `issuedDate` is the raw `date` attribute, if any. */
  datatype RawUpdate = RawUpdate(
    updateType: string,
    status: string,
    id: string,
    title: string,
    severity: string,
    release: string,
    issuedDate: Option<string>,
    references: seq<RawReference>,
    description: string,
    packages: seq<Package>)

  /** Why decoding one element failed. */
  datatype DecodeError =
    | BadDate(value: string, cause: NumError)  // `date` is not a base-10 int64
    | BadUrl(value: string)                    // `href` is rejected by the URL parser
    | BadXml(msg: string)                      // the element itself is malformed XML

  /** `date.UnmarshalXMLAttr`: the attribute must be a base-10 int64, which is
      taken as seconds since the epoch. */
  function DecodeDate(attr: string): (r: Result<int, DecodeError>)
    ensures r.Success? <==> IsDecimal(attr) && InInt64(DecimalValue(attr))
    ensures r.Success? ==> r.value == DecimalValue(attr)
    ensures r.Failure? ==> r.error.BadDate? && r.error.value == attr
  {
    match ParseInt(attr)
    case Success(ts) => Success(ts)
    case Failure(e) => Failure(BadDate(attr, e))
  }

  /** `href.UnmarshalXMLAttr` over a reference list, in document order; the
      first href the URL parser rejects fails the whole element. */
  function DecodeReferences(rs: seq<RawReference>, parseUrl: string -> Option<string>): (r: Result<seq<Reference>, DecodeError>)
    ensures r.Success? <==> forall i :: 0 <= i < |rs| ==> parseUrl(rs[i].href).Some?
    ensures r.Success? ==> |r.value| == |rs|
    ensures r.Success? ==> forall i :: 0 <= i < |rs| ==>
              r.value[i] == Reference(parseUrl(rs[i].href).value, rs[i].id, rs[i].title, rs[i].refType)
    ensures r.Failure? ==>
              exists k :: (0 <= k < |rs| && parseUrl(rs[k].href).None? && r.error == BadUrl(rs[k].href)
                           && forall i :: 0 <= i < k ==> parseUrl(rs[i].href).Some?)
  {
    if |rs| == 0 then Success([])
    else
      match parseUrl(rs[0].href)
      case None => Failure(BadUrl(rs[0].href))
      case Some(u) =>
        match DecodeReferences(rs[1..], parseUrl)
        case Failure(e) => Failure(e)
        case Success(tail) =>
          Success([Reference(u, rs[0].id, rs[0].title, rs[0].refType)] + tail)
  }

  /** Decoding one `<update>` element: the date attribute is checked first,
      then the reference URLs; everything else is copied as delivered. */
  function DecodeUpdate(raw: RawUpdate, parseUrl: string -> Option<string>): (r: Result<Update, DecodeError>)
    ensures r.Success? <==>
              (raw.issuedDate.Some? ==> IsDecimal(raw.issuedDate.value) && InInt64(DecimalValue(raw.issuedDate.value)))
              && (forall i :: 0 <= i < |raw.references| ==> parseUrl(raw.references[i].href).Some?)
    ensures r.Success? ==>
              && r.value.issued.date == (if raw.issuedDate.None? then None else Some(DecimalValue(raw.issuedDate.value)))
              && |r.value.references| == |raw.references|
              && (forall i :: 0 <= i < |raw.references| ==>
                    var rr := raw.references[i];
                    r.value.references[i] == Reference(parseUrl(rr.href).value, rr.id, rr.title, rr.refType))
              && r.value.packages == raw.packages
              && r.value.updateType == raw.updateType && r.value.status == raw.status
              && r.value.id == raw.id && r.value.title == raw.title && r.value.severity == raw.severity
              && r.value.release == raw.release && r.value.description == raw.description
    ensures r.Success? && r.value.issued.date.Some? ==> InInt64(r.value.issued.date.value)
    ensures raw.issuedDate.Some? && !DecodeDate(raw.issuedDate.value).Success? ==>
              r == Failure(DecodeDate(raw.issuedDate.value).error)
  {
    var date :=
      match raw.issuedDate
      case None => Success(None)
      case Some(attr) =>
        (match DecodeDate(attr)
         case Success(ts) => Success(Some(ts))
         case Failure(e) => Failure(e));
    match date
    case Failure(e) => Failure(e)
    case Success(d) =>
      match DecodeReferences(raw.references, parseUrl)
      case Failure(e) => Failure(e)
      case Success(refs) =>
        Success(Update(raw.updateType, raw.status, raw.id, raw.title, raw.severity, raw.release,
                       Issued(d), refs, raw.description, raw.packages))
  }

  /** `Issued.MarshalJSON`: the Unix seconds as a quoted decimal string. Go
      dereferences the date unconditionally, so it must be present. */
  function MarshalIssued(i: Issued): (text: string)
    requires i.date.Some?
    ensures |text| >= 3 && text[0] == '"' && text[|text| - 1] == '"'
    ensures forall k :: 1 <= k < |text| - 1 ==> text[k] == '-' || IsDigit(text[k])
  {
    "\"" + FormatInt(i.date.value) + "\""
  }

  /** The date survives the trip to JSON and back: the text between the quotes
      decodes, as a `date` attribute, to the stored seconds. */
  lemma IssuedRoundTrip(i: Issued)
    requires i.date.Some? && InInt64(i.date.value)
    ensures var text := MarshalIssued(i);
            DecodeDate(text[1..|text| - 1]) == Success(i.date.value)
  {
    var text := MarshalIssued(i);
    assert text[1..|text| - 1] == FormatInt(i.date.value);
    FormatIntRoundTrip(i.date.value);
  }

  /** A reference in JSON: `href` is a struct, so `omitempty` never drops it. */
  function ReferenceJson(r: Reference): Value {
    JObject([Member("href", JString(r.href))] + (OmitEmpty("id", r.id) + (OmitEmpty("title", r.title)
            + OmitEmpty("type", r.refType))))
  }

  /** A package in JSON; `filename` is tagged `json:"-"`. */
  function PackageJson(p: Package): Value {
    JObject(OmitEmpty("name", p.name) + (OmitEmpty("version", p.version) + (OmitEmpty("release", p.release)
            + OmitEmpty("arch", p.arch))))
  }

  function ReferencesJson(rs: seq<Reference>): seq<Value> {
    seq(|rs|, i requires 0 <= i < |rs| => ReferenceJson(rs[i]))
  }

  function PackagesJson(ps: seq<Package>): seq<Value> {
    seq(|ps|, i requires 0 <= i < |ps| => PackageJson(ps[i]))
  }

  /** An update in JSON, members in struct order. `status` and `release` are
      tagged `json:"-"`; the issued date is a struct, so `omitempty` never drops it. */
  function UpdateJson(u: Update): Value
    requires u.issued.date.Some?
  {
    JObject(
      OmitEmpty("type", u.updateType) + (OmitEmpty("id", u.id) + (OmitEmpty("title", u.title)
      + (OmitEmpty("severity", u.severity)
      + ([Member("date", JString(FormatInt(u.issued.date.value)))]
      + (OmitEmptyList("references", ReferencesJson(u.references))
      + (OmitEmpty("description", u.description)
      + OmitEmptyList("packages", PackagesJson(u.packages)))))))))
  }

  /** The JSON array of updates that `json.MarshalIndent` lays out. */
  function UpdatesJson(us: seq<Update>): (v: Value)
    requires forall i :: 0 <= i < |us| ==> us[i].issued.date.Some?
    ensures v.JArray? && |v.elems| == |us|
    ensures forall i :: 0 <= i < |us| ==> v.elems[i] == UpdateJson(us[i])
  {
    JArray(seq(|us|, i requires 0 <= i < |us| => UpdateJson(us[i])))
  }

  /** The value an `omitempty` string field contributes. */
  function StringField(s: string): Option<Value> {
    if s == "" then None else Some(JString(s))
  }

  /** The value an `omitempty` slice field contributes. */
  function ListField(elems: seq<Value>): Option<Value> {
    if |elems| == 0 then None else Some(JArray(elems))
  }

  /** What each JSON key of an update holds, read off the struct tags: the five
      strings when non-empty, the date always, the two lists when non-empty,
      and nothing under any other key (so never `status` or `release`). */
  lemma {:induction false} UpdateJsonFields(u: Update, key: string)
    requires u.issued.date.Some?
    ensures Lookup(UpdateJson(u).members, key) ==
              if key == "type" then StringField(u.updateType)
              else if key == "id" then StringField(u.id)
              else if key == "title" then StringField(u.title)
              else if key == "severity" then StringField(u.severity)
              else if key == "date" then Some(JString(FormatInt(u.issued.date.value)))
              else if key == "references" then ListField(ReferencesJson(u.references))
              else if key == "description" then StringField(u.description)
              else if key == "packages" then ListField(PackagesJson(u.packages))
              else None
  {
    var a8 := OmitEmptyList("packages", PackagesJson(u.packages));
    var a7 := OmitEmpty("description", u.description);
    var a6 := OmitEmptyList("references", ReferencesJson(u.references));
    var a5: seq<Member> := [Member("date", JString(FormatInt(u.issued.date.value)))];
    var a4 := OmitEmpty("severity", u.severity);
    var a3 := OmitEmpty("title", u.title);
    var a2 := OmitEmpty("id", u.id);
    var a1 := OmitEmpty("type", u.updateType);
    LookupAppend(a7, a8, key);
    LookupAppend(a6, a7 + a8, key);
    LookupSingle(a5[0], key);
    LookupAppend(a5, a6 + (a7 + a8), key);
    LookupAppend(a4, a5 + (a6 + (a7 + a8)), key);
    LookupAppend(a3, a4 + (a5 + (a6 + (a7 + a8))), key);
    LookupAppend(a2, a3 + (a4 + (a5 + (a6 + (a7 + a8)))), key);
    LookupAppend(a1, a2 + (a3 + (a4 + (a5 + (a6 + (a7 + a8))))), key);
  }

  /** What each JSON key of a package holds: the four strings when non-empty,
      nothing else (so never `filename`). */
  lemma {:induction false} PackageJsonFields(p: Package, key: string)
    ensures Lookup(PackageJson(p).members, key) ==
              if key == "name" then StringField(p.name)
              else if key == "version" then StringField(p.version)
              else if key == "release" then StringField(p.release)
              else if key == "arch" then StringField(p.arch)
              else None
  {
    var a4 := OmitEmpty("arch", p.arch);
    var a3 := OmitEmpty("release", p.release);
    var a2 := OmitEmpty("version", p.version);
    var a1 := OmitEmpty("name", p.name);
    LookupAppend(a3, a4, key);
    LookupAppend(a2, a3 + a4, key);
    LookupAppend(a1, a2 + (a3 + a4), key);
  }

  /** What each JSON key of a reference holds: `href` always, the other three
      strings when non-empty, nothing else. */
  lemma {:induction false} ReferenceJsonFields(r: Reference, key: string)
    ensures Lookup(ReferenceJson(r).members, key) ==
              if key == "href" then Some(JString(r.href))
              else if key == "id" then StringField(r.id)
              else if key == "title" then StringField(r.title)
              else if key == "type" then StringField(r.refType)
              else None
  {
    var a4 := OmitEmpty("type", r.refType);
    var a3 := OmitEmpty("title", r.title);
    var a2 := OmitEmpty("id", r.id);
    var a1: seq<Member> := [Member("href", JString(r.href))];
    LookupAppend(a3, a4, key);
    LookupAppend(a2, a3 + a4, key);
    LookupSingle(a1[0], key);
    LookupAppend(a1, a2 + (a3 + a4), key);
  }

  /** `Status`, the top-level `Release` and a package's `Filename` never reach JSON. */
  lemma JsonHidesInternalFields(u: Update)
    requires u.issued.date.Some?
    ensures !HasKey(UpdateJson(u).members, "status")
    ensures !HasKey(UpdateJson(u).members, "release")
    ensures forall p :: p in u.packages ==> !HasKey(PackageJson(p).members, "filename")
  {
    UpdateJsonFields(u, "status");
    UpdateJsonFields(u, "release");
    forall p | p in u.packages ensures !HasKey(PackageJson(p).members, "filename") {
      PackageJsonFields(p, "filename");
    }
  }

  /** The references and packages arrays list every element in the record's order. */
  lemma JsonListsKeepOrder(u: Update)
    requires u.issued.date.Some?
    ensures var refs := Lookup(UpdateJson(u).members, "references");
            && (refs.Some? <==> |u.references| > 0)
            && (refs.Some? ==>
                  (refs.value.JArray? && |refs.value.elems| == |u.references|
                   && forall i :: 0 <= i < |u.references| ==> refs.value.elems[i] == ReferenceJson(u.references[i])))
    ensures var pkgs := Lookup(UpdateJson(u).members, "packages");
            && (pkgs.Some? <==> |u.packages| > 0)
            && (pkgs.Some? ==>
                  (pkgs.value.JArray? && |pkgs.value.elems| == |u.packages|
                   && forall i :: 0 <= i < |u.packages| ==> pkgs.value.elems[i] == PackageJson(u.packages[i])))
  {
    UpdateJsonFields(u, "references");
    UpdateJsonFields(u, "packages");
  }
}
