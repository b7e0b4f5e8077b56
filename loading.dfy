/** `load_data`: which CSV files a city choice reads, how the files are joined,
    and the filter applied afterwards. Reading and parsing a CSV file is not
    modelled: the working directory is a map from file names to files whose
    rows are already parsed. */
module Loading {
  import opened Wrappers
  import opened Text
  import opened Tables
  import opened Trips
  import opened Filtering

  /** A parsed CSV file; files differ in whether they carry the Gender and
      Birth Year columns. */
  datatype CsvFile = CsvFile(hasGender: bool, hasBirthYear: bool, rows: seq<RawTrip>)

  /** A loaded data frame: its optional columns and its rows with the derived
      columns added. */
  datatype Frame = Frame(hasGender: bool, hasBirthYear: bool, rows: seq<Trip>)

  type Disk = map<string, CsvFile>

  /** The files joined for "all cities", in the order they are joined. */
  const AllCityFiles: seq<string> := ["chicago.csv", "new_york_city.csv", "washington.csv"]

  /** The file of one city: its name, lower-cased, spaces replaced by "_". */
  function CsvFileName(city: int): (name: string)
    requires city in CityNames && city != 0
  {
    Replace(Lower(CityNames[city]), ' ', '_') + ".csv"
  }

  /** The file list for "all cities" is exactly the three per-city file names,
      so choice 0 reads the same files as choices 1, 2 and 3 together. */
  lemma AllCitiesAreTheCityFiles()
    ensures AllCityFiles == [CsvFileName(1), CsvFileName(2), CsvFileName(3)]
  {
    ChicagoFileName();
    NewYorkCityFileName();
    WashingtonFileName();
  }

  lemma ChicagoFileName()
    ensures CsvFileName(1) == "chicago.csv"
  {
  }

  lemma NewYorkCityFileName()
    ensures CsvFileName(2) == "new_york_city.csv"
  {
  }

  lemma WashingtonFileName()
    ensures CsvFileName(3) == "washington.csv"
  {
  }

  /** The files `load_data` reads for a city choice. */
  function FilesFor(city: int): (names: seq<string>)
    requires city in CityNames
  {
    if city == 0 then AllCityFiles else [CsvFileName(city)]
  }

  /** `pd.read_csv` of every name in turn; a missing file raises, which is `None`. */
  function ReadFiles(names: seq<string>, disk: Disk): (r: Option<seq<CsvFile>>)
    ensures r.Some? <==> forall n :: n in names ==> n in disk
    ensures r.Some? ==> |r.value| == |names| && forall i :: 0 <= i < |names| ==> r.value[i] == disk[names[i]]
  {
    if names == [] then Some([])
    else if names[0] !in disk then None
    else match ReadFiles(names[1..], disk)
      case None => None
      case Some(rest) => Some([disk[names[0]]] + rest)
  }

  /** The rows of one file with the derived columns added. */
  function DeriveRows(f: CsvFile): (rows: seq<Trip>)
    ensures |rows| == |f.rows|
  {
    seq(|f.rows|, i requires 0 <= i < |f.rows| => Derive(f.rows[i], f.hasGender, f.hasBirthYear))
  }

  /** `pd.concat`: the rows of the files one after another; an optional column
      is present if any file has it, and reads as missing in the rows of the
      files that lack it. */
  function Concat(files: seq<CsvFile>): (joined: Frame) {
    if files == [] then Frame(false, false, [])
    else
      var rest := Concat(files[1..]);
      Frame(files[0].hasGender || rest.hasGender, files[0].hasBirthYear || rest.hasBirthYear,
            DeriveRows(files[0]) + rest.rows)
  }

  /** `load_data(city, month, day)`. It fails when a file it needs is missing;
      otherwise its rows are exactly those of the joined files that obey the
      filter rule, in their original order. */
  function LoadData(city: int, month: int, day: int, disk: Disk): (r: Option<Frame>)
    requires city in CityNames
    ensures r.Some? <==> forall n :: n in FilesFor(city) ==> n in disk
    ensures r.Some? ==>
      var joined := Concat(ReadFiles(FilesFor(city), disk).value);
      r.value.hasGender == joined.hasGender && r.value.hasBirthYear == joined.hasBirthYear &&
      IsSubsequence(r.value.rows, joined.rows) &&
      forall t :: multiset(r.value.rows)[t] == if Keep(t, month, day) then multiset(joined.rows)[t] else 0
  {
    match ReadFiles(FilesFor(city), disk)
    case None => None
    case Some(files) =>
      var joined := Concat(files);
      FilterSpec(joined.rows, month, day);
      Some(Frame(joined.hasGender, joined.hasBirthYear, FilterByMonthAndDay(joined.rows, month, day)))
  }

  lemma ReadOneCity(city: int, disk: Disk)
    requires city in CityNames && city != 0 && CsvFileName(city) in disk
    ensures ReadFiles(FilesFor(city), disk) == Some([disk[CsvFileName(city)]])
    ensures Concat([disk[CsvFileName(city)]]).rows == DeriveRows(disk[CsvFileName(city)])
  {
    var n := CsvFileName(city);
    var f := disk[n];
    assert FilesFor(city) == [n];
    assert [n][1..] == [];
    assert ReadFiles([], disk) == Some([]);
    assert [f] + [] == [f];
    assert [f][1..] == [];
    assert DeriveRows(f) + [] == DeriveRows(f);
  }

  lemma ReadAllCities(disk: Disk)
    requires forall n :: n in AllCityFiles ==> n in disk
    ensures var f1, f2, f3 := disk[AllCityFiles[0]], disk[AllCityFiles[1]], disk[AllCityFiles[2]];
      ReadFiles(FilesFor(0), disk) == Some([f1, f2, f3]) &&
      Concat([f1, f2, f3]).rows == DeriveRows(f1) + (DeriveRows(f2) + DeriveRows(f3))
  {
    var f1, f2, f3 := disk[AllCityFiles[0]], disk[AllCityFiles[1]], disk[AllCityFiles[2]];
    var r := ReadFiles(AllCityFiles, disk);
    assert r.Some? && |r.value| == 3;
    assert r.value[0] == f1 && r.value[1] == f2 && r.value[2] == f3;
    assert r.value == [f1, f2, f3];
    assert [f1, f2, f3][1..] == [f2, f3] && [f2, f3][1..] == [f3] && [f3][1..] == [];
    assert Concat([f3]).rows == DeriveRows(f3) + [];
    assert DeriveRows(f3) + [] == DeriveRows(f3);
  }

  /** Choosing "all cities" yields the rows of Chicago, New York City and
      Washington, each filtered, one after another. */
  lemma AllCitiesJoinsEachCity(month: int, day: int, disk: Disk)
    requires forall n :: n in AllCityFiles ==> n in disk
    ensures LoadData(0, month, day, disk).Some? && LoadData(1, month, day, disk).Some? &&
            LoadData(2, month, day, disk).Some? && LoadData(3, month, day, disk).Some?
    ensures LoadData(0, month, day, disk).value.rows ==
            LoadData(1, month, day, disk).value.rows +
            LoadData(2, month, day, disk).value.rows +
            LoadData(3, month, day, disk).value.rows
  {
    AllCitiesAreTheCityFiles();
    ReadAllCities(disk);
    ReadOneCity(1, disk);
    ReadOneCity(2, disk);
    ReadOneCity(3, disk);
    var r1, r2, r3 := DeriveRows(disk[AllCityFiles[0]]), DeriveRows(disk[AllCityFiles[1]]), DeriveRows(disk[AllCityFiles[2]]);
    FilterAppend(r1, r2 + r3, month, day);
    FilterAppend(r2, r3, month, day);
  }
}
