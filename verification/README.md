# qri request and argument decisions, modelled in Dafny

qri is a version-control engine for structured datasets. This project models
three small pieces of its pure decision logic and proves properties of them:

- **`qri get` argument classification** (`GetCommand`, get_command.dfy). The
  first command-line argument is taken as a selection path when it names a
  dataset component: it matches the case-insensitive, unanchored pattern
  `commit|structure|body|meta|viz|transform`. The remaining arguments are
  dataset references. `IsDatasetField` is the pattern's meaning.
  `MatchString` is a scanning matcher proved equivalent to it. `Complete`
  performs the split.
- **Package-file names** (`Dsfs`, package_file.dfy). `PackageFile` is an
  integer type with six named values, 0 to 5. A table maps them to file names.
  Every other value reads as the empty name.
- **Dataset HTTP handler rules** (`DatasetsApi`, datasets_api.dfy). A request
  is abstracted as the values a handler has already extracted. Each rule
  returns either the parameter record the handler would pass to the dataset
  core or the reason for a 400 rejection. The rules cover data-endpoint paging
  defaults, the JSON branch of save, the JSON branch of init, the field checks
  of add and get, and the optional-file path check.

`Text` (text.dfy) holds ASCII case folding and substring search. Substring
search is proved against a declarative "occurs at index i" definition.
`Wrappers` (wrappers.dfy) holds `Option` and `Result`.

Two things the handlers call are not part of this model, so they are
parameters. The dataset-reference parser (`DatasetRefFromPath`) is the
function parameter `RefParser`. The integer query-parameter reader
(`ReqParamInt`) is given as an `Option<int>` that is `None` when the value
could not be read.

## Model

| member | source | states |
|---|---|---|
| Text.ContainsIffOccurs | api/datasets.go:336 | The substring test used on the save URL is true exactly when the pattern occurs at some index of the string. |
| GetCommand.IsDatasetFieldIff | cmd/get.go:50-51 | An argument is a dataset field exactly when one of commit, structure, body, meta, viz or transform occurs somewhere in its ASCII lower-cased form. The match is unanchored and case-insensitive. |
| GetCommand.IsDatasetFieldCaseInsensitive | cmd/get.go:51 | Two arguments that are equal up to ASCII case are classified the same way; in particular an argument and its lower-cased form are. |
| GetCommand.MatchString | cmd/get.go:51-56 | The scan over start positions and keywords answers true exactly when the argument is a dataset field. |
| GetCommand.Complete | cmd/get.go:54-61 | If the first argument is a field, it becomes the path and the rest become the refs in order. Otherwise the path is empty and the refs are the arguments unchanged. With no arguments both are empty. |
| GetCommand.CompleteRoundTrip | cmd/get.go:55-61 | Putting a non-empty path back in front of the refs gives back the original arguments, so nothing is lost or reordered. |
| GetCommand.CompletePathIsField | cmd/get.go:55-59 | The path is non-empty exactly when the first argument is a field, and then the path equals that argument. |
| GetCommand.CompleteRefsSuffix | cmd/get.go:56-61 | At most one argument is removed, and the refs are always a suffix of the arguments. |
| GetCommand.CompleteKeepsLaterArgs | cmd/get.go:56-61 | Every argument after the first stays among the refs, at its position shifted by at most one. |
| GetCommand.CompleteNoArgs | cmd/get_test.go:23 | Case from the command's test table: no arguments give an empty path and no refs. |
| GetCommand.CompleteOneNonField | cmd/get_test.go:24 | Case from the command's test table: "one arg" is not a field and stays a ref. |
| GetCommand.CompleteFieldThenRef | cmd/get_test.go:25 | Case from the command's test table: "commit" becomes the path and "peer/ds" stays a ref. |
| GetCommand.CompleteTwoRefs | cmd/get_test.go:26 | Case from the command's test table: two references stay refs in order. |
| GetCommand.CompleteNonFieldThenRef | cmd/get_test.go:27 | Case from the command's test table: "foo" is not a field, so both arguments stay refs. |
| GetCommand.CompleteFieldOnly | cmd/get_test.go:28 | Case from the command's test table: "structure" alone becomes the path, leaving no refs. |
| GetCommand.CompleteUpperCaseField | cmd/get.go:51 | An upper-case keyword ("BODY") is a field, because the pattern ignores case. |
| GetCommand.CompleteKeywordInside | cmd/get.go:51 | A keyword inside a longer argument ("my_meta") makes it a field, because the pattern is unanchored. |
| GetCommand.CompleteLaterFieldIgnored | cmd/get.go:55-58 | A keyword in the second position stays a ref, because only the first argument is examined. |
| Dsfs.Filename | vendor/github.com/qri-io/dataset/dsfs/package.go:27-29 | The name is non-empty exactly for the five named files 1 to 5. It is empty for the unknown file and for every value outside the table. |
| Dsfs.String | vendor/github.com/qri-io/dataset/dsfs/package.go:23-25 | The printed form is non-empty exactly for the five named files. |
| Dsfs.StringIsFilename | vendor/github.com/qri-io/dataset/dsfs/package.go:23-25 | The printed form equals the file name for every value. |
| Dsfs.ConstantsConsecutive | vendor/github.com/qri-io/dataset/dsfs/package.go:5-12 | The six constants are the consecutive integers 0 to 5, starting with the unknown file. |
| Dsfs.FilenameTable | vendor/github.com/qri-io/dataset/dsfs/package.go:14-21 | Each constant maps to exactly its listed name: "", dataset.json, structure.json, abstract_structure.json, resources and query.json. |
| Dsfs.FilenameOutsideTable | vendor/github.com/qri-io/dataset/dsfs/package.go:27-29 | A negative value or one above 5 is not in the table and has the empty name. |
| Dsfs.FilenameRoundTrip | vendor/github.com/qri-io/dataset/dsfs/package.go:16-20 | Each named file is recovered from its name by the inverse lookup. |
| Dsfs.FromFilenameRoundTrip | vendor/github.com/qri-io/dataset/dsfs/package.go:16-20 | Every name the inverse lookup recognises is the file name of the value it returns. |
| Dsfs.FilenameInjective | vendor/github.com/qri-io/dataset/dsfs/package.go:16-20 | Two named files with the same name are the same file. |
| DatasetsApi.DataParams | api/datasets.go:498-521 | An unreadable limit becomes 100 and an unreadable offset becomes 0. Readable values are kept. "all" is set exactly when the form value is "true", the limit is 100 and the offset is 0. The data path is the URL after "/data". |
| DatasetsApi.DataAllOnlyAtDefaultPage | api/datasets.go:520 | Reading everything implies the default page and an "all" form value of "true". |
| DatasetsApi.DataExplicitDefaultsSameAsAbsent | api/datasets.go:504-520 | Giving limit 100 and offset 0 explicitly yields the same parameters as leaving them out. |
| DatasetsApi.DataExplicitPageDisablesAll | api/datasets.go:520 | A readable limit other than 100, or a readable offset other than 0, turns "all" off. |
| DatasetsApi.SaveRefText | api/datasets.go:336-337 | On a URL that starts with "/save/", the parser receives the text after that prefix. |
| DatasetsApi.SaveRefTextAfterPrefix | api/datasets.go:336-337 | For every rest, "/save/" followed by rest passes the substring test, and the parser receives exactly rest. |
| DatasetsApi.SaveFromBody | api/datasets.go:348-370 | A settled body is accepted exactly when its data field is empty. Otherwise the rejection is the inline-data error. |
| DatasetsApi.SaveJson | api/datasets.go:326-370 | A body that fails to decode is rejected. Otherwise the save is accepted exactly when the "/save/" ref parses (if present) and data is empty. A parse failure is rejected with the parser's message, and non-empty data after that with the inline-data error. When the URL's ref has a peername, peername and name come from the URL; otherwise they come from the body. Title and message come from the body. Meta and structure become "meta.json" and "structure.json" payloads exactly when non-empty. URL and data are never set. |
| DatasetsApi.SaveJsonDataNeverSaved | api/datasets.go:354-357 | A JSON save with a non-empty data field is always rejected, either for the data or for an earlier ref-parse failure. |
| DatasetsApi.SaveJsonIgnoresBodyNames | api/datasets.go:342-345 | When the URL's ref has a peername, the body's peername and name do not affect the outcome. |
| DatasetsApi.SaveJsonWithoutSavePath | api/datasets.go:336-370 | Without "/save/" in the URL the parser is never consulted, and the outcome is that of the body alone. |
| DatasetsApi.InitJson | api/datasets.go:236-245 | A JSON init is accepted exactly when the body decodes and names a url. The decoded parameters pass through unchanged. An empty url gives the missing-url rejection. |
| DatasetsApi.InitJsonIgnoresNames | api/datasets.go:242-245 | The init decision does not depend on the body's peername or name; only the url matters. |
| DatasetsApi.AddRef | api/datasets.go:294-304 | The ref after "/add/" is accepted exactly when it parses and has both a peername and a name. A parse failure carries the parser's message. Any other rejection is the missing-peername-or-name error. |
| DatasetsApi.GetRef | api/datasets.go:190-200 | The ref parsed from the path is accepted exactly when it parses and has a name. A parse failure carries the parser's message. Any other rejection is the missing-name error. |
| DatasetsApi.AddStricterThanGet | api/datasets.go:301-304 | Every ref text that add accepts is also accepted by get's check. |
| DatasetsApi.LoadFileIfPath | api/datasets.go:486-496 | An empty path loads nothing. A non-empty relative path is an error. Exactly the absolute paths reach the open call, unchanged. |
| DatasetsApi.LoadFileIfPathDependsOnFirstChar | api/datasets.go:491-495 | Extending a non-empty path never changes whether it is opened or rejected, because absoluteness depends on its first character only. |

## Left out

- HTTP method dispatch (api/datasets.go:38-155), JSON and multipart decoding, response writing, logging and the zip export are not modelled. They are I/O; a decoded body is an `Option` that is `None` when decoding failed.
- The multipart (non-JSON) branches of the save and init handlers are not modelled. They read uploaded files through `FormFile`, which is I/O.
- The list, peer-list, remove and rename handlers are not modelled. They only forward to the dataset core and the reference parser, neither of which is part of this model.
- `DatasetRefFromPath`, `repo.ParseDatasetRef` and `util.ReqParamInt` are not part of this model. The first is the `RefParser` parameter, and the last is an `Option<int>`.
- The calls into the dataset core (Save, Get, Add, Init, StructuredData) and `os.Open` are not modelled. The rules return the parameters that would be passed to those calls, and `LoadFileIfPath` returns the path it would open.
- GetCommand.IsDatasetFieldIff: case folding is ASCII only. Go's `(?i)` also applies Unicode simple folding, so the long s (U+017F) would match as "s" in "structure" and "transform"; the model does not cover that.
- DatasetsApi.LoadFileIfPath: uses the Unix rule for absolute paths (a leading "/"). Windows drive and UNC paths are not modelled.
- DatasetsApi.DataParams: the data format is always JSON in the source, so it is not a field of the record.
- GetCommand.Complete: the factory call at cmd/get.go:62-63 is not modelled. Its error is returned from `Complete` after Path and Refs are already set, and the factory is not part of this model.
- `GetOptions.Run` (cmd/get.go:67-90) is not modelled. It depends on the reference parser and the select request, neither of which is part of this model.
- cmd/qri.go, cmd/add.go, cmd/info.go, cmd/registry.go and cmd/render.go are not modelled. They are configuration loading, RPC setup and thin loops over requests that are not part of this model.
- Path slicing that can panic in Go (the "/data" and "/add/" prefixes) is a `requires` on the path length. The router only dispatches paths carrying those prefixes. The "/save/" slice is guarded by the substring test, and a lemma proves that guard implies the length. Like the source, it slices at the fixed offset 6, not at the position where "/save/" occurs.
- DatasetsApi.SaveRefText: Go strings are byte sequences, and Go slices the URL path at byte offset 6; the model's strings are character sequences sliced at character 6. The two agree when the first six characters are ASCII. For "/é/save/x" Go hands the parser "ve/x" and the model "e/x".
- DatasetsApi.DataParams: the "/data" slice is at a character offset, not Go's byte offset; they agree when the prefix is ASCII, as the router's "/data" prefix is.
- DatasetsApi.AddRef: the "/add/" slice is at a character offset, not Go's byte offset; they agree when the prefix is ASCII, as the router's "/add/" prefix is.
- Text.ContainsIffOccurs: the substring test works on characters, Go's strings.Contains on UTF-8 bytes; for the ASCII pattern "/save/" both find the same occurrences.
- The versioning engine (reference resolution, commit history, Save, Rename, Remove, peer fetch, registry publishing) is not modelled. Its code is not part of this model.
