/**
  The package-file names of the dataset file-system layer (dsfs/package.go).

  `PackageFile` is an integer type whose first six values are named; the name
  table covers exactly those six, and any other value reads as the empty name
  (a missing map key gives the zero value).
 */
module Dsfs {
  import opened Wrappers

  newtype PackageFile = int

  const PackageFileUnknown: PackageFile := 0
  const PackageFileDataset: PackageFile := 1
  const PackageFileStructure: PackageFile := 2
  const PackageFileAbstractStructure: PackageFile := 3
  const PackageFileResources: PackageFile := 4
  const PackageFileQuery: PackageFile := 5

  /** The name table, keyed by the six named values. */
  const Filenames: map<PackageFile, string> := map[
    PackageFileUnknown := "",
    PackageFileDataset := "dataset.json",
    PackageFileStructure := "structure.json",
    PackageFileAbstractStructure := "abstract_structure.json",
    PackageFileResources := "resources",
    PackageFileQuery := "query.json"
  ]

  /** True of the five values that name an actual file. */
  predicate IsNamedFile(p: PackageFile) {
    PackageFileDataset <= p <= PackageFileQuery
  }

  /** The file name of a package file; the empty string outside the table. */
  function Filename(p: PackageFile): (name: string)
    ensures name != "" <==> IsNamedFile(p)
    ensures !(PackageFileUnknown <= p <= PackageFileQuery) ==> name == ""
  {
    if p in Filenames then Filenames[p] else ""
  }

  /** The printed form of a package file, which is its file name. */
  function String(p: PackageFile): (s: string)
    ensures s != "" <==> IsNamedFile(p)
  {
    Filename(p)
  }

  /**
    The inverse lookup: the package file a name belongs to, if any. Used to
    state that the name table loses no information on the named values.
   */
  function FromFilename(name: string): (r: Option<PackageFile>)
    ensures r.Some? ==> IsNamedFile(r.value)
  {
    if name == "dataset.json" then Some(PackageFileDataset)
    else if name == "structure.json" then Some(PackageFileStructure)
    else if name == "abstract_structure.json" then Some(PackageFileAbstractStructure)
    else if name == "resources" then Some(PackageFileResources)
    else if name == "query.json" then Some(PackageFileQuery)
    else None
  }

  /** `String` and `Filename` agree on every value, inside or outside the table. */
  lemma StringIsFilename(p: PackageFile)
    ensures String(p) == Filename(p)
  {
  }

  /** The constants are the consecutive integers 0 to 5, starting with the unknown file. */
  lemma ConstantsConsecutive()
    ensures PackageFileUnknown as int == 0
    ensures PackageFileDataset == PackageFileUnknown + 1
    ensures PackageFileStructure == PackageFileDataset + 1
    ensures PackageFileAbstractStructure == PackageFileStructure + 1
    ensures PackageFileResources == PackageFileAbstractStructure + 1
    ensures PackageFileQuery == PackageFileResources + 1
  {
  }

  /** Each named constant maps to exactly its listed file name; the unknown file maps to "". */
  lemma FilenameTable()
    ensures Filename(PackageFileUnknown) == ""
    ensures Filename(PackageFileDataset) == "dataset.json"
    ensures Filename(PackageFileStructure) == "structure.json"
    ensures Filename(PackageFileAbstractStructure) == "abstract_structure.json"
    ensures Filename(PackageFileResources) == "resources"
    ensures Filename(PackageFileQuery) == "query.json"
  {
  }

  /** Values outside the table, negative or above the last constant, have the empty name. */
  lemma FilenameOutsideTable(p: PackageFile)
    requires p < PackageFileUnknown || p > PackageFileQuery
    ensures p !in Filenames
    ensures Filename(p) == ""
  {
  }

  /** Round trip: the named values are recovered from their file names. */
  lemma FilenameRoundTrip(p: PackageFile)
    requires IsNamedFile(p)
    ensures FromFilename(Filename(p)) == Some(p)
  {
  }

  /** Round trip the other way: a recognised name is the file name of the value it maps to. */
  lemma FromFilenameRoundTrip(name: string)
    requires FromFilename(name).Some?
    ensures Filename(FromFilename(name).value) == name
  {
  }

  /** The named values have pairwise distinct names, so `Filename` is injective on them. */
  lemma FilenameInjective(p: PackageFile, q: PackageFile)
    requires IsNamedFile(p) && IsNamedFile(q)
    requires Filename(p) == Filename(q)
    ensures p == q
  {
    FilenameRoundTrip(p);
    FilenameRoundTrip(q);
  }
}
