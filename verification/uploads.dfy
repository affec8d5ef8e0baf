/**
 * The upload loop of app.py's `main`: every uploaded file is routed by the
 * lower-cased text after its last '.', read into a table (CSV and Excel by
 * pandas' readers, PDF and Word by the synthetic generators), and described by
 * a file record; files of any other kind are skipped. Tables and records are
 * collected in upload order, and the first reader that raises aborts the loop.
 */
module Uploads {
  import opened Wrappers
  import opened Text
  import opened Tables
  import opened Draws
  import opened DemoData

  /** An uploaded file as the loop sees it: its name, MIME type and size in bytes. */
  datatype Upload = Upload(name: string, mime: string, size: nat)

  datatype FileKind = Csv | Excel | Pdf | Word | Unsupported

  /**
   * Everything the loop consults besides the uploads: pandas' two readers (an
   * error message when they raise), the draw for the size of each document
   * stand-in by upload position, and the demo generator's fixed streams.
   */
  datatype Sources = Sources(
    csv: Upload -> Result<Table, string>,
    excel: Upload -> Result<Table, string>,
    sizeDraw: nat -> nat,
    seeded: nat -> Oracle)

  /** One row of the "processed files" summary. Demo records carry no MIME type or size. */
  datatype FileRecord = FileRecord(name: string, mime: Option<string>, sizeBytes: Option<nat>, rows: nat, status: string)

  const CheckMark: string := "\U{2705}"
  const PageGlyph: string := "\U{1F4C4}"
  const MemoGlyph: string := "\U{1F4DD}"
  const DiceGlyph: string := "\U{1F3B2}"

  /** `name.split('.')[-1].lower()`. */
  function Extension(name: string): string {
    Lower(LastSegment(name))
  }

  /** The branch of the loop a file takes. */
  function KindOf(name: string): FileKind {
    KindOfExtension(Extension(name))
  }

  /** The `if`/`elif` chain on the extension. */
  function KindOfExtension(ext: string): FileKind {
    if ext == "csv" then Csv
    else if ext == "xlsx" || ext == "xls" then Excel
    else if ext == "pdf" then Pdf
    else if ext == "docx" then Word
    else Unsupported
  }

  /** The status glyph a processed file records. */
  function Glyph(k: FileKind): (g: string)
    ensures k == Csv || k == Excel ==> g == CheckMark
    ensures k == Pdf ==> g == PageGlyph
    ensures k == Word ==> g == MemoGlyph
  {
    match k
    case Csv => CheckMark
    case Excel => CheckMark
    case Pdf => PageGlyph
    case Word => MemoGlyph
    case Unsupported => ""
  }

  /** Only the text after the last dot decides: whatever precedes it is irrelevant. */
  lemma {:induction false} LastSegmentAfterDot(stem: string, ext: string)
    requires '.' !in ext
    ensures LastSegment(stem + "." + ext) == ext
    decreases |ext|
  {
    var s := stem + "." + ext;
    if |ext| == 0 {
      assert s[|s| - 1] == '.';
    } else {
      var init := ext[..|ext| - 1];
      assert s[..|s| - 1] == stem + "." + init;
      assert s[|s| - 1] == ext[|ext| - 1];
      LastSegmentAfterDot(stem, init);
      assert init + [ext[|ext| - 1]] == ext;
    }
  }

  lemma {:induction false} KindAfterDot(stem: string, ext: string)
    requires '.' !in ext
    ensures KindOf(stem + "." + ext) == KindOf(ext)
  {
    LastSegmentAfterDot(stem, ext);
    LastSegmentWhole(ext);
    assert Extension(stem + "." + ext) == Extension(ext);
  }

  /** Lower-casing leaves the dots where they are, so it commutes with taking the last segment. */
  lemma {:induction false} LastSegmentLower(s: string)
    ensures LastSegment(Lower(s)) == Lower(LastSegment(s))
    decreases |s|
  {
    if |s| > 0 {
      var n := |s|;
      var init := s[..n - 1];
      var low := Lower(s);
      assert low[..n - 1] == Lower(init);
      assert low[n - 1] == LowerChar(s[n - 1]);
      if s[n - 1] == '.' {
        assert low[n - 1] == '.';
        assert LastSegment(low) == "" && LastSegment(s) == "";
      } else {
        assert low[n - 1] != '.';
        LastSegmentLower(init);
        assert LastSegment(low) == LastSegment(Lower(init)) + [LowerChar(s[n - 1])];
        assert LastSegment(s) == LastSegment(init) + [s[n - 1]];
        LowerSnoc(LastSegment(init), s[n - 1]);
      }
    }
  }

  /** The routing ignores ASCII case: a name and its lower-cased form take the same branch. */
  lemma {:induction false} KindIgnoresCase(name: string)
    ensures KindOf(Lower(name)) == KindOf(name)
  {
    LastSegmentLower(name);
    LowerIdempotent(LastSegment(name));
    assert Extension(Lower(name)) == Extension(name);
  }

  /** A name routes by its last extension, lower-cased, whatever comes before the dot. */
  lemma KindOfName(stem: string, ext: string)
    requires '.' !in ext
    ensures KindOf(stem + "." + ext) == KindOfExtension(Lower(ext))
  {
    LastSegmentAfterDot(stem, ext);
  }

  /** The upper-case extensions lower-case to the ones the chain tests. */
  lemma UpperExtensionsLowered()
    ensures Lower("CSV") == "csv" && Lower("XLSX") == "xlsx"
  {
  }

  /** An upper-case `.CSV` is routed to the CSV reader. */
  lemma UpperCsvRouted(stem: string)
    ensures KindOf(stem + ".CSV") == Csv
  {
    assert stem + ".CSV" == stem + "." + "CSV";
    assert KindOf(stem + "." + "CSV") == Csv by {
      KindOfName(stem, "CSV");
      UpperExtensionsLowered();
    }
  }

  /** An upper-case `.XLSX` is routed to the Excel reader. */
  lemma UpperXlsxRouted(stem: string)
    ensures KindOf(stem + ".XLSX") == Excel
  {
    assert stem + ".XLSX" == stem + "." + "XLSX";
    assert KindOf(stem + "." + "XLSX") == Excel by {
      KindOfName(stem, "XLSX");
      UpperExtensionsLowered();
    }
  }

  /** A name without a dot is routed by the whole name. */
  lemma KindOfBareName(name: string)
    requires '.' !in name
    ensures KindOf(name) == KindOfExtension(Lower(name))
  {
    LastSegmentWhole(name);
  }

  /** Lower-casing leaves "csv" alone. */
  lemma CsvLowered()
    ensures Lower("csv") == "csv"
  {
  }

  /** A bare "csv" with no dot is a CSV file: the whole name is its extension. */
  lemma BareNameRouted()
    ensures KindOf("csv") == Csv
  {
    KindOfBareName("csv");
    CsvLowered();
  }

  /** A compressed "x.csv.gz" is skipped: only the last extension counts. */
  lemma DoubleExtensionSkipped(stem: string)
    ensures KindOf(stem + ".csv" + ".gz") == Unsupported
  {
    assert stem + ".csv" + ".gz" == (stem + ".csv") + "." + "gz";
    assert KindOf((stem + ".csv") + "." + "gz") == Unsupported by {
      KindOfName(stem + ".csv", "gz");
      assert Lower("gz") == "gz";
    }
  }

  /**
   * The table one upload yields: `None` for a skipped file, the reader's table
   * for CSV and Excel, a demo table for PDF and Word. `i` is the file's
   * position in the upload list.
   */
  function ReadUpload(u: Upload, i: nat, src: Sources): (r: Result<Option<Table>, Error>)
    ensures r.Success? && r.value.None? <==> KindOf(u.name) == Unsupported
    ensures r.Failure? <==>
      (KindOf(u.name) == Csv && src.csv(u).Failure?) || (KindOf(u.name) == Excel && src.excel(u).Failure?)
    ensures r.Failure? ==> r.error.ReadFailed? && r.error.file == u.name
    ensures KindOf(u.name) == Csv && src.csv(u).Success? ==> r == Success(Some(src.csv(u).value))
    ensures KindOf(u.name) == Excel && src.excel(u).Success? ==> r == Success(Some(src.excel(u).value))
    ensures KindOf(u.name) == Pdf ==> r.Success? && r.value.Some? && 30 <= |r.value.value.rows| <= 99
    ensures KindOf(u.name) == Word ==> r.Success? && r.value.Some? && 20 <= |r.value.value.rows| <= 79
  {
    match KindOf(u.name)
    case Csv =>
      (match src.csv(u)
       case Success(t) => Success(Some(t))
       case Failure(m) => Failure(ReadFailed(u.name, m)))
    case Excel =>
      (match src.excel(u)
       case Success(t) => Success(Some(t))
       case Failure(m) => Failure(ReadFailed(u.name, m)))
    case Pdf => Success(Some(CrearDatosDesdePdf(src.sizeDraw(i), src.seeded)))
    case Word => Success(Some(CrearDatosDesdeWord(src.sizeDraw(i), src.seeded)))
    case Unsupported => Success(None)
  }

  /** The `file_info` dictionary of a processed upload. */
  function RecordFor(u: Upload, t: Table): (rec: FileRecord)
    ensures rec.name == u.name && rec.rows == |t.rows|
    ensures KindOf(u.name) == Csv || KindOf(u.name) == Excel ==> rec.status == CheckMark
    ensures KindOf(u.name) == Pdf ==> rec.status == PageGlyph
    ensures KindOf(u.name) == Word ==> rec.status == MemoGlyph
    ensures rec.status == Glyph(KindOf(u.name))
  {
    var kind := KindOf(u.name);
    var g := Glyph(kind);
    FileRecord(u.name, Some(u.mime), Some(u.size), |t.rows|, g)
  }

  /** The loop does not skip the upload. */
  predicate IsSupported(u: Upload) {
    KindOf(u.name) != Unsupported
  }

  /** The positions of the `true` entries of `flags`, in order. */
  function Positions(flags: seq<bool>): (ix: seq<nat>)
    ensures forall k :: 0 <= k < |ix| ==> ix[k] < |flags| && flags[ix[k]]
    ensures forall k, m :: 0 <= k < m < |ix| ==> ix[k] < ix[m]
    ensures |ix| <= |flags|
    decreases |flags|
  {
    if |flags| == 0 then []
    else
      var last := |flags| - 1;
      var prev := Positions(flags[..last]);
      var ix := prev + if flags[last] then [last] else [];
      PositionsStep(flags, prev, ix);
      ix
  }

  /** Extending the positions of all but the last flag by the last one, if it is set. */
  lemma PositionsStep(flags: seq<bool>, prev: seq<nat>, ix: seq<nat>)
    requires |flags| > 0
    requires forall k :: 0 <= k < |prev| ==> prev[k] < |flags| - 1 && flags[..|flags| - 1][prev[k]]
    requires forall k, m :: 0 <= k < m < |prev| ==> prev[k] < prev[m]
    requires |prev| <= |flags| - 1
    requires ix == prev + if flags[|flags| - 1] then [|flags| - 1] else []
    ensures forall k :: 0 <= k < |ix| ==> ix[k] < |flags| && flags[ix[k]]
    ensures forall k, m :: 0 <= k < m < |ix| ==> ix[k] < ix[m]
    ensures |ix| <= |flags|
  {
    assert forall k :: 0 <= k < |prev| ==> ix[k] == prev[k];
  }

  /** Every `true` entry's position is listed. */
  lemma {:induction false} PositionsComplete(flags: seq<bool>, i: nat)
    requires i < |flags| && flags[i]
    ensures i in Positions(flags)
    decreases |flags|
  {
    var last := |flags| - 1;
    if i < last {
      assert flags[..last][i] == flags[i];
      PositionsComplete(flags[..last], i);
    }
  }

  /** The positions of the uploads the loop does not skip, in order. */
  function Supported(us: seq<Upload>): (ix: seq<nat>)
    ensures forall k :: 0 <= k < |ix| ==> ix[k] < |us| && IsSupported(us[ix[k]])
    ensures forall k, m :: 0 <= k < m < |ix| ==> ix[k] < ix[m]
    ensures |ix| <= |us|
  {
    Positions(SupportFlags(us))
  }

  /** Which uploads the loop does not skip, position by position. */
  function SupportFlags(us: seq<Upload>): (flags: seq<bool>)
    ensures |flags| == |us|
  {
    seq(|us|, i requires 0 <= i < |us| => IsSupported(us[i]))
  }

  /** Every upload that is not skipped has its position listed. */
  lemma SupportedComplete(us: seq<Upload>, i: nat)
    requires i < |us| && IsSupported(us[i])
    ensures i in Supported(us)
  {
    PositionsComplete(SupportFlags(us), i);
  }

  /** Appending an upload appends its position when it is not skipped. */
  lemma SupportedSnoc(us: seq<Upload>)
    requires |us| > 0
    ensures Supported(us) == Supported(us[..|us| - 1]) + if IsSupported(us[|us| - 1]) then [|us| - 1] else []
  {
    var last := |us| - 1;
    assert SupportFlags(us)[..last] == SupportFlags(us[..last]);
  }

  /** The summed `registros` of a list of file records. */
  function RecordRows(recs: seq<FileRecord>): nat
    decreases |recs|
  {
    if |recs| == 0 then 0 else RecordRows(recs[..|recs| - 1]) + recs[|recs| - 1].rows
  }

  /** What a completed loop collected: `all_dataframes` and `processed_files`. */
  datatype Batch = Batch(tables: seq<Table>, records: seq<FileRecord>)

  /** The per-file step of the loop: the table an upload at a given position yields, if any. */
  type Reader = (Upload, nat) -> Result<Option<Table>, Error>

  /** The loop's actual step: `ReadUpload` with the given sources. */
  function Read(src: Sources): Reader {
    (u: Upload, i: nat) => ReadUpload(u, i, src)
  }

  /** Some upload's read raises. */
  predicate SomeReadFails(us: seq<Upload>, read: Reader) {
    exists i :: 0 <= i < |us| && read(us[i], i).Failure?
  }

  /** The read of the upload at position i yields a table. */
  predicate Yields(us: seq<Upload>, read: Reader, i: nat)
    requires i < |us|
  {
    read(us[i], i).Success? && read(us[i], i).value.Some?
  }

  /** Every upload whose read yields a table has its position listed. */
  lemma ProducedComplete(us: seq<Upload>, read: Reader, i: nat)
    requires i < |us| && Yields(us, read, i)
    ensures i in Produced(us, read)
  {
    PositionsComplete(seq(|us|, i requires 0 <= i < |us| => Yields(us, read, i)), i);
  }

  /** The positions whose read yields a table, in order. */
  function Produced(us: seq<Upload>, read: Reader): (ix: seq<nat>)
    ensures forall k :: 0 <= k < |ix| ==> ix[k] < |us| && Yields(us, read, ix[k])
    ensures forall k, m :: 0 <= k < m < |ix| ==> ix[k] < ix[m]
    ensures |ix| <= |us|
  {
    Positions(seq(|us|, i requires 0 <= i < |us| => Yields(us, read, i)))
  }

  lemma ProducedSnoc(us: seq<Upload>, read: Reader)
    requires |us| > 0
    ensures Produced(us, read) ==
      Produced(us[..|us| - 1], read) + if Yields(us, read, |us| - 1) then [|us| - 1] else []
  {
    var last := |us| - 1;
    var flags := seq(|us|, i requires 0 <= i < |us| => Yields(us, read, i));
    var initFlags := seq(last, i requires 0 <= i < last => Yields(us[..last], read, i));
    assert flags[..last] == initFlags;
  }

  /**
   * The loop over the uploads: a file whose read yields nothing is skipped, any
   * other adds its table and its record in lockstep, and the first read that
   * raises ends the loop with its error.
   */
  function ProcessAll(us: seq<Upload>, read: Reader): (r: Result<Batch, Error>)
    ensures r.Success? ==> |r.value.tables| == |r.value.records|
    decreases |us|
  {
    if |us| == 0 then Success(Batch([], []))
    else
      var last := |us| - 1;
      match ProcessAll(us[..last], read)
      case Failure(e) => Failure(e)
      case Success(b) =>
        match read(us[last], last)
        case Failure(e) => Failure(e)
        case Success(None) => Success(b)
        case Success(Some(t)) =>
          var b' := Batch(b.tables + [t], b.records + [RecordFor(us[last], t)]);
          assert b'.tables[..|b'.tables| - 1] == b.tables;
          assert b'.records[..|b'.records| - 1] == b.records;
          Success(b')
  }

  /** A completed loop collects exactly as many tables as there are uploads whose read yields one. */
  lemma {:induction false} ProcessAllCount(us: seq<Upload>, read: Reader)
    requires ProcessAll(us, read).Success?
    ensures |ProcessAll(us, read).value.tables| == |Produced(us, read)|
    decreases |us|
  {
    if |us| > 0 {
      ProcessAllCount(us[..|us| - 1], read);
      ProducedSnoc(us, read);
    }
  }

  /** The k-th table and record of a completed loop come from the k-th upload whose read yields a table. */
  lemma {:induction false} ProcessAllAt(us: seq<Upload>, read: Reader, k: nat)
    requires ProcessAll(us, read).Success?
    requires k < |ProcessAll(us, read).value.tables|
    ensures k < |Produced(us, read)|
    ensures var b := ProcessAll(us, read).value;
      var i := Produced(us, read)[k];
      && read(us[i], i) == Success(Some(b.tables[k]))
      && b.records[k] == RecordFor(us[i], b.tables[k])
    decreases |us|
  {
    ProcessAllCount(us, read);
    var last := |us| - 1;
    var init := us[..last];
    var b := ProcessAll(us, read).value;
    var pb := ProcessAll(init, read).value;
    ProcessAllCount(init, read);
    ProducedSnoc(us, read);
    if k < |pb.tables| {
      ProcessAllAt(init, read, k);
      var i := Produced(init, read)[k];
      assert init[i] == us[i];
      assert b.tables[k] == pb.tables[k] && b.records[k] == pb.records[k];
    }
  }

  /**
   * A completed loop holds one table and one record per upload whose read
   * yields a table, in upload order: that table, and the record counting its rows.
   */
  lemma ProcessAllInOrder(us: seq<Upload>, read: Reader)
    requires ProcessAll(us, read).Success?
    ensures var b := ProcessAll(us, read).value;
      && |b.tables| == |b.records| == |Produced(us, read)|
      && forall k :: 0 <= k < |b.tables| ==>
        var i := Produced(us, read)[k];
        && read(us[i], i) == Success(Some(b.tables[k]))
        && b.records[k] == RecordFor(us[i], b.tables[k])
  {
    ProcessAllCount(us, read);
    var b := ProcessAll(us, read).value;
    forall k | 0 <= k < |b.tables|
      ensures var i := Produced(us, read)[k];
        && read(us[i], i) == Success(Some(b.tables[k]))
        && b.records[k] == RecordFor(us[i], b.tables[k])
    {
      ProcessAllAt(us, read, k);
    }
  }

  /** The records' row counts add up to the rows of the collected tables. */
  lemma {:induction false} ProcessAllRows(us: seq<Upload>, read: Reader)
    requires ProcessAll(us, read).Success?
    ensures RecordRows(ProcessAll(us, read).value.records) == TotalRows(ProcessAll(us, read).value.tables)
    decreases |us|
  {
    if |us| > 0 {
      var last := |us| - 1;
      ProcessAllRows(us[..last], read);
    }
  }

  /** The loop fails exactly when some upload's read raises, and then with the first such error. */
  lemma {:induction false} ProcessAllFails(us: seq<Upload>, read: Reader)
    ensures ProcessAll(us, read).Failure? <==> SomeReadFails(us, read)
    ensures ProcessAll(us, read).Failure? ==>
      exists i :: 0 <= i < |us| && read(us[i], i) == Failure(ProcessAll(us, read).error)
        && (forall j :: 0 <= j < i ==> read(us[j], j).Success?)
    decreases |us|
  {
    if |us| > 0 {
      var last := |us| - 1;
      var init := us[..last];
      ProcessAllFails(init, read);
      assert forall i :: 0 <= i < last ==> init[i] == us[i];
      if SomeReadFails(us, read) && !SomeReadFails(init, read) {
        var i :| 0 <= i < |us| && read(us[i], i).Failure?;
        assert i == last;
      }
    }
  }

  /** With the actual step, the uploads that yield a table are exactly the ones the loop does not skip. */
  lemma ProducedIsSupported(us: seq<Upload>, src: Sources)
    requires !SomeReadFails(us, Read(src))
    ensures Produced(us, Read(src)) == Supported(us)
  {
    var read := Read(src);
    var a := seq(|us|, i requires 0 <= i < |us| => Yields(us, read, i));
    var b := SupportFlags(us);
    forall i | 0 <= i < |us|
      ensures a[i] == b[i]
    {
      var r := ReadUpload(us[i], i, src);
      assert read(us[i], i) == r;
      assert r.Success? by {
        assert !read(us[i], i).Failure?;
      }
      assert a[i] == r.value.Some?;
    }
    assert a == b;
  }

  /** When no read yields a table the loop completes with nothing collected. */
  lemma {:induction false} NothingYielded(us: seq<Upload>, read: Reader)
    requires forall i :: 0 <= i < |us| ==> read(us[i], i) == Success(None)
    ensures ProcessAll(us, read) == Success(Batch([], []))
    decreases |us|
  {
    if |us| > 0 {
      var last := |us| - 1;
      assert forall i :: 0 <= i < last ==> us[..last][i] == us[i];
      NothingYielded(us[..last], read);
    }
  }

  /** A list holding only skipped files yields no tables, so nothing is stored. */
  lemma AllSkippedYieldsNothing(us: seq<Upload>, src: Sources)
    requires forall i :: 0 <= i < |us| ==> !IsSupported(us[i])
    ensures ProcessAll(us, Read(src)) == Success(Batch([], []))
  {
    var read := Read(src);
    forall i | 0 <= i < |us|
      ensures read(us[i], i) == Success(None)
    {
      var r := ReadUpload(us[i], i, src);
      assert r.Success? && r.value.None?;
    }
    NothingYielded(us, read);
  }
}
