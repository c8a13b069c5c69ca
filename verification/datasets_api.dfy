/**
  The request-parameter decisions of the dataset HTTP handlers (api/datasets.go).

  A request is abstracted as the values the handler has already extracted:
  the URL path, decoded JSON bodies (`None` when decoding failed), form values
  and integer query parameters. Each rule returns the parameter record the
  handler would hand to the dataset core, or the classified reason it answers
  400 Bad Request instead. The dataset-reference parser is not part of this
  model and is passed in as `RefParser`.
 */
module DatasetsApi {
  import opened Wrappers
  import Text

  newtype byte = x: int | 0 <= x < 256

  /** Raw JSON text as the handler received it (Go's json.RawMessage). */
  type Bytes = seq<byte>

  /** A dataset reference as the path parser returns it. */
  datatype DatasetRef = DatasetRef(peername: string, name: string, profileId: string, path: string)

  /** The reference parser applied to URL paths; an error carries its message. */
  type RefParser = string -> Result<DatasetRef, string>

  /**
    Why a handler answers 400 Bad Request before calling into the dataset
    core; each handler rule below writes its rejection with that status.
   */
  datatype ApiError =
    | BodyDecodeFailed
    | RefParseFailed(message: string)
    | JsonDataRejected
    | MissingPeernameOrName
    | MissingName
    | MissingUrl

  // ---------------------------------------------------------------------
  // Data endpoint

  /** The number of entries read when the request does not give a usable limit. */
  const DefaultDataLimit: int := 100

  const DataPrefix: string := "/data"

  /**
    The extracted data request: `limit` and `offset` are `None` when the query
    parameter is absent or not an integer.
   */
  datatype DataRequest = DataRequest(urlPath: string, limit: Option<int>, offset: Option<int>, all: string)

  /** The parameters of a structured-data read; the format is always JSON. */
  datatype StructuredDataParams = StructuredDataParams(path: string, limit: int, offset: int, all: bool)

  /**
    Derives the read parameters: unreadable limit and offset fall back to 100
    and 0, and the whole body is requested only when `all` is exactly "true"
    and both limit and offset are at their defaults.
   */
  function DataParams(req: DataRequest): (p: StructuredDataParams)
    requires |DataPrefix| <= |req.urlPath|
    ensures req.limit.None? ==> p.limit == DefaultDataLimit
    ensures req.limit.Some? ==> p.limit == req.limit.value
    ensures req.offset.None? ==> p.offset == 0
    ensures req.offset.Some? ==> p.offset == req.offset.value
    ensures p.all <==> req.all == "true" && p.limit == DefaultDataLimit && p.offset == 0
    ensures req.urlPath == req.urlPath[..|DataPrefix|] + p.path
  {
    var limit := if req.limit.Some? then req.limit.value else DefaultDataLimit;
    var offset := if req.offset.Some? then req.offset.value else 0;
    StructuredDataParams(
      req.urlPath[|DataPrefix|..],
      limit,
      offset,
      req.all == "true" && limit == DefaultDataLimit && offset == 0)
  }

  /** Reading everything implies the default page: the "all" flag never overrides an explicit page. */
  lemma DataAllOnlyAtDefaultPage(req: DataRequest)
    requires |DataPrefix| <= |req.urlPath|
    ensures DataParams(req).all ==> DataParams(req).limit == DefaultDataLimit && DataParams(req).offset == 0
    ensures DataParams(req).all ==> req.all == "true"
  {
  }

  /** A limit of 100 and an offset of 0 given explicitly are indistinguishable from leaving them out. */
  lemma DataExplicitDefaultsSameAsAbsent(path: string, all: string)
    requires |DataPrefix| <= |path|
    ensures DataParams(DataRequest(path, Some(DefaultDataLimit), Some(0), all))
         == DataParams(DataRequest(path, None, None, all))
  {
  }

  /** Any other explicit page switches "all" off, whatever the form value says. */
  lemma DataExplicitPageDisablesAll(req: DataRequest)
    requires |DataPrefix| <= |req.urlPath|
    requires (req.limit.Some? && req.limit.value != DefaultDataLimit)
          || (req.offset.Some? && req.offset.value != 0)
    ensures !DataParams(req).all
  {
  }

  // ---------------------------------------------------------------------
  // Save endpoint, JSON body

  const SavePrefix: string := "/save/"
  const MetaFilename: string := "meta.json"
  const StructureFilename: string := "structure.json"

  /** The fields of a decoded JSON save body; absent fields decode as empty. */
  datatype SaveBody = SaveBody(
    peername: string, name: string, title: string, message: string,
    data: Bytes, meta: Bytes, structure: Bytes)

  /** A component payload read from an in-memory file of the given name. */
  datatype Payload = Payload(filename: string, content: Bytes)

  /** The parameters handed to the dataset core's Save. */
  datatype SaveParams = SaveParams(
    peername: string, name: string, title: string, message: string, url: string,
    data: Option<Payload>, metadata: Option<Payload>, structure: Option<Payload>)

  /** The path part the save handler gives the reference parser. */
  function SaveRefText(urlPath: string): (t: string)
    requires Text.Contains(urlPath, SavePrefix)
    ensures Text.StartsWith(urlPath, SavePrefix) ==> urlPath == SavePrefix + t
  {
    Text.ContainsNeedsLength(urlPath, SavePrefix);
    urlPath[|SavePrefix|..]
  }

  /** True when the URL's reference replaces the body's peername and name. */
  predicate PathNamesDataset(urlPath: string, parse: RefParser) {
    Text.Contains(urlPath, SavePrefix)
    && parse(SaveRefText(urlPath)).Ok?
    && parse(SaveRefText(urlPath)).value.peername != ""
  }

  /** Builds the save parameters from a JSON body whose names are settled. */
  function SaveFromBody(b: SaveBody): (r: Result<SaveParams, ApiError>)
    ensures r.Ok? <==> |b.data| == 0
    ensures r.Err? ==> r.error == JsonDataRejected
  {
    if |b.data| != 0 then Err(JsonDataRejected)
    else
      Ok(SaveParams(
        b.peername, b.name, b.title, b.message, "",
        None,
        if |b.meta| != 0 then Some(Payload(MetaFilename, b.meta)) else None,
        if |b.structure| != 0 then Some(Payload(StructureFilename, b.structure)) else None))
  }

  /**
    The JSON branch of the save handler. A body that does not decode, a
    "/save/" path the parser rejects, and a non-empty `data` field are each a
    bad request; otherwise the URL's reference overrides the body's peername
    and name when it names a peer, meta and structure become payloads named
    "meta.json" and "structure.json" when non-empty, and no URL is passed on.
   */
  function SaveJson(urlPath: string, body: Option<SaveBody>, parse: RefParser): (r: Result<SaveParams, ApiError>)
    ensures body.None? ==> r == Err(BodyDecodeFailed)
    ensures r.Ok? <==>
              && body.Some?
              && (Text.Contains(urlPath, SavePrefix) ==> parse(SaveRefText(urlPath)).Ok?)
              && |body.value.data| == 0
    ensures body.Some? && |body.value.data| != 0 ==> r.Err?
    ensures body.Some? && Text.Contains(urlPath, SavePrefix) && parse(SaveRefText(urlPath)).Err? ==>
              r == Err(RefParseFailed(parse(SaveRefText(urlPath)).error))
    ensures (&& body.Some?
             && (Text.Contains(urlPath, SavePrefix) ==> parse(SaveRefText(urlPath)).Ok?)
             && |body.value.data| != 0)
            ==> r == Err(JsonDataRejected)
    ensures r.Ok? && PathNamesDataset(urlPath, parse) ==>
              && r.value.peername == parse(SaveRefText(urlPath)).value.peername
              && r.value.name == parse(SaveRefText(urlPath)).value.name
    ensures r.Ok? && !PathNamesDataset(urlPath, parse) ==>
              r.value.peername == body.value.peername && r.value.name == body.value.name
    ensures r.Ok? ==>
              && r.value.title == body.value.title
              && r.value.message == body.value.message
              && r.value.url == ""
              && r.value.data.None?
    ensures r.Ok? ==>
              && (r.value.metadata.Some? <==> |body.value.meta| != 0)
              && (r.value.metadata.Some? ==> r.value.metadata == Some(Payload("meta.json", body.value.meta)))
              && (r.value.structure.Some? <==> |body.value.structure| != 0)
              && (r.value.structure.Some? ==> r.value.structure == Some(Payload("structure.json", body.value.structure)))
  {
    if body.None? then Err(BodyDecodeFailed)
    else
      var b := body.value;
      if Text.Contains(urlPath, SavePrefix) then
        match parse(SaveRefText(urlPath))
        case Err(msg) => Err(RefParseFailed(msg))
        case Ok(args) =>
          SaveFromBody(if args.peername != "" then b.(peername := args.peername, name := args.name) else b)
      else SaveFromBody(b)
  }

  /** A JSON save carrying inline data never reaches Save, whatever the path says. */
  lemma SaveJsonDataNeverSaved(urlPath: string, b: SaveBody, parse: RefParser)
    requires |b.data| != 0
    ensures SaveJson(urlPath, Some(b), parse).Err?
    ensures SaveJson(urlPath, Some(b), parse).error == JsonDataRejected
         || SaveJson(urlPath, Some(b), parse).error.RefParseFailed?
  {
  }

  /**
    When the URL's reference names a peer, the body's own peername and name
    are ignored: any other values give the same outcome.
   */
  lemma SaveJsonIgnoresBodyNames(urlPath: string, b: SaveBody, parse: RefParser, peername: string, name: string)
    requires PathNamesDataset(urlPath, parse)
    ensures SaveJson(urlPath, Some(b), parse)
         == SaveJson(urlPath, Some(b.(peername := peername, name := name)), parse)
  {
  }

  /** Without "/save/" in the URL the parser is never consulted: the body alone decides. */
  lemma SaveJsonWithoutSavePath(urlPath: string, b: SaveBody, parse: RefParser)
    requires !Text.Contains(urlPath, SavePrefix)
    ensures SaveJson(urlPath, Some(b), parse) == SaveFromBody(b)
  {
  }

  /** On a path that starts with "/save/", the parser sees exactly the text after that prefix. */
  lemma SaveRefTextAfterPrefix(rest: string)
    ensures Text.Contains(SavePrefix + rest, SavePrefix)
    ensures SaveRefText(SavePrefix + rest) == rest
  {
    assert Text.StartsWith(SavePrefix + rest, SavePrefix);
  }

  // ---------------------------------------------------------------------
  // Init endpoint, JSON body

  /** The fields of a decoded JSON init body. */
  datatype InitParams = InitParams(peername: string, name: string, url: string)

  /** The JSON branch of the init handler: a body that decodes must name a `url`. */
  function InitJson(body: Option<InitParams>): (r: Result<InitParams, ApiError>)
    ensures body.None? ==> r == Err(BodyDecodeFailed)
    ensures r.Ok? <==> body.Some? && body.value.url != ""
    ensures r.Ok? ==> r.value == body.value
    ensures body.Some? && body.value.url == "" ==> r == Err(MissingUrl)
  {
    if body.None? then Err(BodyDecodeFailed)
    else if body.value.url == "" then Err(MissingUrl)
    else Ok(body.value)
  }

  /**
    Init checks only the url: the decision is the same whatever peername and
    name the body carries, unlike add, which needs both.
   */
  lemma InitJsonIgnoresNames(b: InitParams, peername: string, name: string)
    ensures InitJson(Some(b)).Ok? == InitJson(Some(b.(peername := peername, name := name))).Ok?
    ensures InitJson(Some(b.(peername := "", name := ""))).Ok? <==> b.url != ""
  {
  }

  // ---------------------------------------------------------------------
  // Add and get endpoints

  const AddPrefix: string := "/add/"

  /** The add handler's checks: the reference after "/add/" must name both a peer and a dataset. */
  function AddRef(urlPath: string, parse: RefParser): (r: Result<DatasetRef, ApiError>)
    requires |AddPrefix| <= |urlPath|
    ensures r.Ok? <==>
              && parse(urlPath[|AddPrefix|..]).Ok?
              && parse(urlPath[|AddPrefix|..]).value.peername != ""
              && parse(urlPath[|AddPrefix|..]).value.name != ""
    ensures r.Ok? ==> r.value == parse(urlPath[|AddPrefix|..]).value
    ensures parse(urlPath[|AddPrefix|..]).Err? ==> r == Err(RefParseFailed(parse(urlPath[|AddPrefix|..]).error))
    ensures parse(urlPath[|AddPrefix|..]).Ok? && !r.Ok? ==> r == Err(MissingPeernameOrName)
  {
    match parse(urlPath[|AddPrefix|..])
    case Err(msg) => Err(RefParseFailed(msg))
    case Ok(ref) =>
      if ref.peername == "" || ref.name == "" then Err(MissingPeernameOrName) else Ok(ref)
  }

  /** The get handler's checks: the reference parsed from the whole path must name a dataset. */
  function GetRef(urlPath: string, parse: RefParser): (r: Result<DatasetRef, ApiError>)
    ensures r.Ok? <==> parse(urlPath).Ok? && parse(urlPath).value.name != ""
    ensures r.Ok? ==> r.value == parse(urlPath).value
    ensures parse(urlPath).Err? ==> r == Err(RefParseFailed(parse(urlPath).error))
    ensures parse(urlPath).Ok? && !r.Ok? ==> r == Err(MissingName)
  {
    match parse(urlPath)
    case Err(msg) => Err(RefParseFailed(msg))
    case Ok(ref) => if ref.name == "" then Err(MissingName) else Ok(ref)
  }

  /** Every reference add accepts, get accepts as well: add's check is the stricter one. */
  lemma AddStricterThanGet(rest: string, parse: RefParser)
    ensures AddRef(AddPrefix + rest, parse).Ok? ==> GetRef(rest, parse).Ok?
  {
    assert (AddPrefix + rest)[|AddPrefix|..] == rest;
  }

  // ---------------------------------------------------------------------
  // Optional local files

  /** What loading an optional file path decides: nothing to load, open the path, or reject it. */
  datatype LoadDecision = NoFile | OpenFile(path: string) | LoadRejected(message: string)

  /** A Unix absolute path: one that begins at the root. */
  predicate IsAbs(path: string) {
    |path| > 0 && path[0] == '/'
  }

  /** An empty path loads nothing; a relative path is an error; only absolute paths are opened. */
  function LoadFileIfPath(path: string): (r: LoadDecision)
    ensures r.NoFile? <==> path == ""
    ensures r.OpenFile? <==> IsAbs(path)
    ensures r.OpenFile? ==> r.path == path
    ensures r.LoadRejected? <==> path != "" && !IsAbs(path)
  {
    if path == "" then NoFile
    else if !IsAbs(path) then LoadRejected("filepath must be absolute")
    else OpenFile(path)
  }

  /**
    Absoluteness depends only on the first character: extending a non-empty
    path never changes whether it reaches the open call.
   */
  lemma LoadFileIfPathDependsOnFirstChar(path: string, suffix: string)
    requires path != ""
    ensures LoadFileIfPath(path + suffix).OpenFile? == LoadFileIfPath(path).OpenFile?
    ensures LoadFileIfPath(path + suffix).LoadRejected? == LoadFileIfPath(path).LoadRejected?
  {
    assert (path + suffix)[0] == path[0];
  }
}
