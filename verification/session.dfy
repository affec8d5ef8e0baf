/**
 * The session record of app.py's `main` and the actions that change it:
 * uploading files (stored only when every read succeeds), loading a demo
 * table, clearing everything, and running the selected analyses.
 */
module Session {
  import opened Wrappers
  import opened Text
  import opened Tables
  import opened Draws
  import opened Analyzer
  import opened DemoData
  import opened Uploads

  /** A value kept in Streamlit's session state. */
  datatype Entry =
    | Data(table: Table)
    | Files(records: seq<FileRecord>)
    | Count(n: nat)
    | Results(results: map<string, Table>)
    | Other(text: string)

  type State = map<string, Entry>

  const CombinedData: string := "combined_data"
  const ProcessedFiles: string := "processed_files"
  const FileCount: string := "file_count"
  const AnalysisResults: string := "analysis_results"

  /** The three keys a successful upload or a demo button writes. */
  const Written: set<string> := {CombinedData, ProcessedFiles, FileCount}

  /** The keys `clear_session_state` removes. */
  const ClearedKeys: set<string> := {CombinedData, ProcessedFiles, FileCount, AnalysisResults}

  // ---------------------------------------------------------------------------
  // Uploading files
  // ---------------------------------------------------------------------------

  /** The upload step stores something: files were given, none raised, and at least one yielded a table. */
  predicate Accepted(us: seq<Upload>, read: Reader) {
    |us| > 0 && !SomeReadFails(us, read) && |Produced(us, read)| > 0
  }

  /**
   * The upload branch of `main` (app.py:95-157). The three keys are written
   * together after the loop, so a read that raises, or a list of skipped files
   * only, leaves the session exactly as it was; `analysis_results` is never
   * touched.
   */
  function Ingest(s: State, us: seq<Upload>, read: Reader): (r: State)
    ensures !Accepted(us, read) ==> r == s
    ensures forall k :: k !in Written ==> (k in r <==> k in s) && (k in s ==> r[k] == s[k])
    ensures Accepted(us, read) ==>
      && Written <= r.Keys
      && r[CombinedData].Data? && r[ProcessedFiles].Files?
      && r[FileCount] == Count(|us|)
      && WellFormed(r[CombinedData].table)
      && |r[ProcessedFiles].records| == |Produced(us, read)| <= |us|
      && |r[CombinedData].table.rows| == RecordRows(r[ProcessedFiles].records)
  {
    if |us| == 0 then s
    else
      ProcessAllFails(us, read);
      match ProcessAll(us, read)
      case Failure(_) => s
      case Success(b) =>
        ProcessAllCount(us, read);
        if |b.tables| == 0 then s
        else
          ProcessAllRows(us, read);
          ConcatShape(b.tables);
          s[CombinedData := Data(Concat(b.tables))][ProcessedFiles := Files(b.records)][FileCount := Count(|us|)]
  }

  /** An accepted upload stores exactly what the loop collected. */
  lemma IngestedBatch(s: State, us: seq<Upload>, read: Reader)
    requires Accepted(us, read)
    ensures ProcessAll(us, read).Success?
    ensures var b := ProcessAll(us, read).value;
      && Ingest(s, us, read)[CombinedData] == Data(Concat(b.tables))
      && Ingest(s, us, read)[ProcessedFiles] == Files(b.records)
  {
    ProcessAllFails(us, read);
    ProcessAllCount(us, read);
  }

  /**
   * With the actual step, the k-th stored record describes the k-th upload
   * that is not skipped: its name, MIME type, size and its kind's glyph.
   */
  lemma IngestRecords(s: State, us: seq<Upload>, src: Sources, k: nat)
    requires Accepted(us, Read(src))
    requires k < |Supported(us)|
    ensures var recs := Ingest(s, us, Read(src))[ProcessedFiles].records;
      var u := us[Supported(us)[k]];
      && k < |recs|
      && recs[k].name == u.name && recs[k].mime == Some(u.mime) && recs[k].sizeBytes == Some(u.size)
      && recs[k].status == Glyph(KindOf(u.name)) && KindOf(u.name) != Unsupported
  {
    IngestedBatch(s, us, Read(src));
    ProcessAllCount(us, Read(src));
    ProducedIsSupported(us, src);
    ProcessAllAt(us, Read(src), k);
  }

  /** Matching row counts add up to the same total. */
  lemma {:induction false} RowsMatch(recs: seq<FileRecord>, ts: seq<Table>)
    requires |recs| == |ts|
    requires forall k :: 0 <= k < |ts| ==> recs[k].rows == |ts[k].rows|
    ensures RecordRows(recs) == TotalRows(ts)
    decreases |ts|
  {
    if |ts| > 0 {
      RowsMatch(recs[..|recs| - 1], ts[..|ts| - 1]);
    }
  }

  /**
   * In a batch whose records count their tables' rows, row j of the k-th table
   * sits at row (records before it) + j of the concatenation, with every cell.
   */
  lemma BatchKeepsOrder(b: Batch, k: nat, j: nat)
    requires |b.tables| == |b.records|
    requires forall m :: 0 <= m < |b.tables| ==> WellFormed(b.tables[m]) && b.records[m].rows == |b.tables[m].rows|
    requires k < |b.tables| && j < |b.tables[k].rows|
    ensures RecordRows(b.records[..k]) + j < |Concat(b.tables).rows|
    ensures SameCells(Concat(b.tables).rows[RecordRows(b.records[..k]) + j], b.tables[k].rows[j])
  {
    assert RecordRows(b.records[..k]) == TotalRows(b.tables[..k]) by {
      var recs := b.records[..k];
      var ts := b.tables[..k];
      assert forall m :: 0 <= m < k ==> recs[m] == b.records[m] && ts[m] == b.tables[m];
      RowsMatch(recs, ts);
    }
    ConcatKeepsRows(b.tables, k, j);
  }

  /**
   * Upload order: row j of the k-th stored file sits at row
   * (`registros` of the files before it) + j of the combined table, with every
   * cell it had (cells under columns only other files have are missing).
   */
  lemma IngestKeepsUploadOrder(s: State, us: seq<Upload>, read: Reader, k: nat, j: nat)
    requires Accepted(us, read)
    requires forall i :: 0 <= i < |us| && Yields(us, read, i) ==> WellFormed(read(us[i], i).value.value)
    requires k < |Produced(us, read)|
    requires j < |read(us[Produced(us, read)[k]], Produced(us, read)[k]).value.value.rows|
    ensures var r := Ingest(s, us, read);
      var at := RecordRows(r[ProcessedFiles].records[..k]) + j;
      var t := read(us[Produced(us, read)[k]], Produced(us, read)[k]).value.value;
      && at < |r[CombinedData].table.rows|
      && SameCells(r[CombinedData].table.rows[at], t.rows[j])
  {
    assert ProcessAll(us, read).Success? by {
      ProcessAllFails(us, read);
    }
    var b := ProcessAll(us, read).value;
    var r := Ingest(s, us, read);
    assert r[CombinedData] == Data(Concat(b.tables)) && r[ProcessedFiles] == Files(b.records) by {
      IngestedBatch(s, us, read);
    }
    var i := Produced(us, read)[k];
    assert && k < |b.tables| && read(us[i], i).value.value == b.tables[k]
           && RecordRows(b.records[..k]) + j < |Concat(b.tables).rows|
           && SameCells(Concat(b.tables).rows[RecordRows(b.records[..k]) + j], b.tables[k].rows[j]) by {
      UploadOrderInBatch(us, read, k, j);
    }
  }

  /** `IngestKeepsUploadOrder` for the batch the loop collects, before it is stored. */
  lemma UploadOrderInBatch(us: seq<Upload>, read: Reader, k: nat, j: nat)
    requires ProcessAll(us, read).Success?
    requires forall i :: 0 <= i < |us| && Yields(us, read, i) ==> WellFormed(read(us[i], i).value.value)
    requires k < |Produced(us, read)|
    requires j < |read(us[Produced(us, read)[k]], Produced(us, read)[k]).value.value.rows|
    ensures var b := ProcessAll(us, read).value;
      var i := Produced(us, read)[k];
      && k < |b.tables| && read(us[i], i).value.value == b.tables[k]
      && RecordRows(b.records[..k]) + j < |Concat(b.tables).rows|
      && SameCells(Concat(b.tables).rows[RecordRows(b.records[..k]) + j], b.tables[k].rows[j])
  {
    ProducedTable(us, read, k);
    LoopKeepsOrder(us, read, k, j);
  }

  /** The k-th producing upload's read yields the k-th collected table. */
  lemma ProducedTable(us: seq<Upload>, read: Reader, k: nat)
    requires ProcessAll(us, read).Success?
    requires k < |Produced(us, read)|
    ensures k < |ProcessAll(us, read).value.tables|
    ensures var i := Produced(us, read)[k];
      read(us[i], i) == Success(Some(ProcessAll(us, read).value.tables[k]))
  {
    ProcessAllCount(us, read);
    ProcessAllAt(us, read, k);
  }

  /** `BatchKeepsOrder` for the batch the loop collects. */
  lemma LoopKeepsOrder(us: seq<Upload>, read: Reader, k: nat, j: nat)
    requires ProcessAll(us, read).Success?
    requires forall i :: 0 <= i < |us| && Yields(us, read, i) ==> WellFormed(read(us[i], i).value.value)
    requires k < |ProcessAll(us, read).value.tables| && j < |ProcessAll(us, read).value.tables[k].rows|
    ensures var b := ProcessAll(us, read).value;
      && RecordRows(b.records[..k]) + j < |Concat(b.tables).rows|
      && SameCells(Concat(b.tables).rows[RecordRows(b.records[..k]) + j], b.tables[k].rows[j])
  {
    var b := ProcessAll(us, read).value;
    assert |b.tables| == |b.records|;
    assert forall m :: 0 <= m < |b.tables| ==> WellFormed(b.tables[m]) && b.records[m].rows == |b.tables[m].rows| by {
      BatchCountsRows(us, read);
    }
    BatchKeepsOrder(b, k, j);
  }

  /** Each collected table is well formed when the reads yield well-formed tables, and its record counts its rows. */
  lemma BatchCountsRows(us: seq<Upload>, read: Reader)
    requires ProcessAll(us, read).Success?
    requires forall i :: 0 <= i < |us| && Yields(us, read, i) ==> WellFormed(read(us[i], i).value.value)
    ensures var b := ProcessAll(us, read).value;
      forall m :: 0 <= m < |b.tables| ==> WellFormed(b.tables[m]) && b.records[m].rows == |b.tables[m].rows|
  {
    var b := ProcessAll(us, read).value;
    forall m | 0 <= m < |b.tables|
      ensures WellFormed(b.tables[m]) && b.records[m].rows == |b.tables[m].rows|
    {
      ProcessAllAt(us, read, m);
      var i := Produced(us, read)[m];
      assert Yields(us, read, i);
    }
  }

  /** pandas' readers return well-formed tables. */
  ghost predicate ReadersWellFormed(src: Sources) {
    && (forall u :: src.csv(u).Success? ==> WellFormed(src.csv(u).value))
    && (forall u :: src.excel(u).Success? ==> WellFormed(src.excel(u).value))
  }

  /** Every table the actual step yields is well formed, the demo tables included. */
  lemma ReadYieldsWellFormed(us: seq<Upload>, src: Sources)
    requires ReadersWellFormed(src)
    ensures forall i :: 0 <= i < |us| && Yields(us, Read(src), i) ==> WellFormed(Read(src)(us[i], i).value.value)
  {
    forall i | 0 <= i < |us| && Yields(us, Read(src), i)
      ensures WellFormed(Read(src)(us[i], i).value.value)
    {
      var r := ReadUpload(us[i], i, src);
      assert Read(src)(us[i], i) == r;
    }
  }

  // ---------------------------------------------------------------------------
  // Demo buttons and clearing
  // ---------------------------------------------------------------------------

  datatype DemoSize = Small | Large

  /** "Demo Pequeño" loads 50 rows, "Demo Grande" 150. */
  function DemoRowCount(size: DemoSize): nat {
    match size
    case Small => 50
    case Large => 150
  }

  function DemoFileName(size: DemoSize): string {
    match size
    case Small => "demo_pequeno.csv"
    case Large => "demo_grande.csv"
  }

  /**
   * A demo button (app.py:165-180): a demo table of 50 or 150 rows, one file,
   * one record counting those rows; `analysis_results` is left alone.
   */
  function LoadDemo(s: State, size: DemoSize, seeded: nat -> Oracle): (r: State)
    ensures r.Keys == s.Keys + Written
    ensures forall k :: k in s && k !in Written ==> r[k] == s[k]
    ensures r[CombinedData].Data? && |r[CombinedData].table.rows| == DemoRowCount(size)
    ensures WellFormed(r[CombinedData].table)
    ensures r[FileCount] == Count(1)
    ensures r[ProcessedFiles].Files? && |r[ProcessedFiles].records| == 1
    ensures r[ProcessedFiles].records[0].rows == |r[CombinedData].table.rows|
    ensures r[ProcessedFiles].records[0].status == DiceGlyph
  {
    var n := DemoRowCount(size);
    s[CombinedData := Data(CrearDatosDemo(n, seeded))]
     [FileCount := Count(1)]
     [ProcessedFiles := Files([FileRecord(DemoFileName(size), None, None, n, DiceGlyph)])]
  }

  /**
   * Because `crear_datos_demo` reseeds the generator, a PDF or Word stand-in
   * that draws 50 rows holds exactly the table the small demo button loads.
   */
  lemma DocumentMatchesSmallDemo(s: State, seeded: nat -> Oracle)
    ensures CrearDatosDesdePdf(50 - 30, seeded) == LoadDemo(s, Small, seeded)[CombinedData].table
    ensures CrearDatosDesdeWord(50 - 20, seeded) == LoadDemo(s, Small, seeded)[CombinedData].table
  {
  }

  /** `clear_session_state`: the four keys are gone, every other key keeps its value. */
  function ClearSessionState(s: State): (r: State)
    ensures forall k :: k in r <==> k in s && k !in ClearedKeys
    ensures forall k :: k in r ==> r[k] == s[k]
  {
    s - ClearedKeys
  }

  /** Clearing twice is clearing once. */
  lemma ClearIdempotent(s: State)
    ensures ClearSessionState(ClearSessionState(s)) == ClearSessionState(s)
  {
  }

  // ---------------------------------------------------------------------------
  // Running the selected analyses
  // ---------------------------------------------------------------------------

  /** One branch of the `elif` chain: the label text it looks for, the result key and the analysis. */
  datatype Route = Route(pattern: string, key: string, analysis: Analysis)

  /** The `elif` chain of app.py:237-251, in order. */
  const Routes: seq<Route> := [
    Route("\U{1F6A8} Sistema de Alertas", "alertas", Alertas),
    Route("\U{1F4A1} Recomendador", "recomendaciones", Recomendaciones),
    Route("\U{1F4CA} Análisis de Patrones", "estres", PatronesDeEstres),
    Route("\U{1F504} Predictor de Rotación", "rotacion", Rotacion),
    Route("\U{26A0}\U{FE0F} Predictor de Incidentes", "incidentes", Incidentes),
    Route("\U{1F6E1}\U{FE0F} Perfiles de Resiliencia", "resiliencia", Resiliencia),
    Route("\U{1F4C8} Efectividad", "efectividad", Efectividad)
  ]

  /** The seven result keys. */
  const ResultKeys: set<string> :=
    {"alertas", "recomendaciones", "estres", "rotacion", "incidentes", "resiliencia", "efectividad"}

  /** The options of the sidebar's multiselect: each one is its route's text followed by the rest of the label. */
  const Menu: seq<string> := [
    Routes[0].pattern + " Tempranas",
    Routes[1].pattern + " de Intervenciones",
    Routes[2].pattern + " de Estrés",
    Routes[3].pattern + " Voluntaria",
    Routes[4].pattern,
    Routes[5].pattern,
    Routes[6].pattern + " de Intervenciones"
  ]

  /** The first route from position `from` on whose pattern occurs in `name`. */
  function FirstRoute(name: string, from: nat): (r: Option<nat>)
    requires from <= |Routes|
    ensures r.Some? ==> from <= r.value < |Routes| && Contains(name, Routes[r.value].pattern)
    ensures r.Some? ==> forall j :: from <= j < r.value ==> !Contains(name, Routes[j].pattern)
    ensures r.None? ==> forall j :: from <= j < |Routes| ==> !Contains(name, Routes[j].pattern)
    decreases |Routes| - from
  {
    if from == |Routes| then None
    else if Contains(name, Routes[from].pattern) then Some(from)
    else FirstRoute(name, from + 1)
  }

  /**
   * The branch a selected name takes: the first route whose text occurs in the
   * name, or none (the name is ignored).
   */
  function Dispatch(name: string): (r: Option<nat>)
    ensures r.Some? ==> r.value < |Routes| && Contains(name, Routes[r.value].pattern)
    ensures r.Some? ==> forall j :: 0 <= j < r.value ==> !Contains(name, Routes[j].pattern)
    ensures r.None? <==> forall j :: 0 <= j < |Routes| ==> !Contains(name, Routes[j].pattern)
    ensures r.Some? ==> Routes[r.value].key in ResultKeys
  {
    FirstRoute(name, 0)
  }

  /** No two routes share a result key. */
  lemma RouteKeysDistinct()
    ensures forall i, j :: 0 <= i < j < |Routes| ==> Routes[i].key != Routes[j].key
  {
  }

  /** Text without pictographs: Latin letters, spaces and the emoji variation selector. */
  predicate PlainChar(c: char) {
    c < '\U{2000}' || c == '\U{FE0F}'
  }

  predicate PlainText(s: string) {
    forall k :: 0 <= k < |s| ==> PlainChar(s[k])
  }

  // What follows each route's pictograph, and that it is plain text, one
  // literal per lemma.

  lemma AlertasTail()
    ensures Routes[0].pattern[1..] == " Sistema de Alertas"
  {
  }

  lemma AlertasPlain()
    ensures PlainText(" Sistema de Alertas")
  {
  }

  lemma RecomendadorTail()
    ensures Routes[1].pattern[1..] == " Recomendador"
  {
  }

  lemma RecomendadorPlain()
    ensures PlainText(" Recomendador")
  {
  }

  lemma PatronesTail()
    ensures Routes[2].pattern[1..] == " Análisis de Patrones"
  {
  }

  lemma PatronesPlain()
    ensures PlainText(" Análisis de Patrones")
  {
  }

  lemma RotacionTail()
    ensures Routes[3].pattern[1..] == " Predictor de Rotación"
  {
  }

  lemma RotacionPlain()
    ensures PlainText(" Predictor de Rotación")
  {
  }

  lemma IncidentesTail()
    ensures Routes[4].pattern[1..] == "\U{FE0F} Predictor de Incidentes"
  {
  }

  lemma IncidentesPlain()
    ensures PlainText("\U{FE0F} Predictor de Incidentes")
  {
  }

  lemma ResilienciaTail()
    ensures Routes[5].pattern[1..] == "\U{FE0F} Perfiles de Resiliencia"
  {
  }

  lemma ResilienciaPlain()
    ensures PlainText("\U{FE0F} Perfiles de Resiliencia")
  {
  }

  lemma EfectividadTail()
    ensures Routes[6].pattern[1..] == " Efectividad"
  {
  }

  lemma EfectividadPlain()
    ensures PlainText(" Efectividad")
  {
  }

  /** Each route's text is a pictograph followed by plain text. */
  lemma RoutePictograph(i: nat)
    requires i < |Routes|
    ensures |Routes[i].pattern| > 0 && !PlainChar(Routes[i].pattern[0]) && PlainText(Routes[i].pattern[1..])
  {
    AlertasTail();
    AlertasPlain();
    RecomendadorTail();
    RecomendadorPlain();
    PatronesTail();
    PatronesPlain();
    RotacionTail();
    RotacionPlain();
    IncidentesTail();
    IncidentesPlain();
    ResilienciaTail();
    ResilienciaPlain();
    EfectividadTail();
    EfectividadPlain();
  }

  /** The seven routes start with seven different pictographs. */
  lemma RoutePictographsDistinct(i: nat, j: nat)
    requires i < j < |Routes|
    ensures |Routes[i].pattern| > 0 && |Routes[j].pattern| > 0 && Routes[i].pattern[0] != Routes[j].pattern[0]
  {
  }

  /**
   * A label that starts with a route's text and continues with plain text takes
   * that route: no earlier route's pictograph occurs in it.
   */
  lemma DispatchTo(i: nat, rest: string)
    requires i < |Routes| && PlainText(rest)
    ensures Dispatch(Routes[i].pattern + rest) == Some(i)
  {
    var p := Routes[i].pattern;
    var name := p + rest;
    RoutePictograph(i);
    assert IsPrefix(p, name);
    PrefixContained(name, p);
    forall j | 0 <= j < i
      ensures !Contains(name, Routes[j].pattern)
    {
      EarlierRouteAbsent(i, j, rest);
    }
  }

  /** An earlier route's pictograph occurs nowhere in a later route's text followed by plain text. */
  lemma EarlierRouteAbsent(i: nat, j: nat, rest: string)
    requires j < i < |Routes| && PlainText(rest)
    ensures !Contains(Routes[i].pattern + rest, Routes[j].pattern)
  {
    var p := Routes[i].pattern;
    var name := p + rest;
    RoutePictograph(i);
    RoutePictograph(j);
    RoutePictographsDistinct(j, i);
    var c := Routes[j].pattern[0];
    forall k | 0 <= k < |name|
      ensures name[k] != c
    {
      if 0 < k < |p| {
        assert name[k] == p[1..][k - 1];
      } else if k >= |p| {
        assert name[k] == rest[k - |p|];
      }
    }
    MissingCharNotContained(name, Routes[j].pattern, c);
  }

  lemma MenuAlertasDispatched()
    ensures Dispatch(Menu[0]) == Some(0)
  {
    DispatchTo(0, " Tempranas");
  }

  lemma MenuRecomendadorDispatched()
    ensures Dispatch(Menu[1]) == Some(1)
  {
    DispatchTo(1, " de Intervenciones");
  }

  lemma MenuPatronesDispatched()
    ensures Dispatch(Menu[2]) == Some(2)
  {
    DispatchTo(2, " de Estrés");
  }

  lemma MenuRotacionDispatched()
    ensures Dispatch(Menu[3]) == Some(3)
  {
    DispatchTo(3, " Voluntaria");
  }

  lemma MenuIncidentesDispatched()
    ensures Dispatch(Menu[4]) == Some(4)
  {
    DispatchTo(4, "");
    assert Routes[4].pattern + "" == Menu[4];
  }

  lemma MenuResilienciaDispatched()
    ensures Dispatch(Menu[5]) == Some(5)
  {
    DispatchTo(5, "");
    assert Routes[5].pattern + "" == Menu[5];
  }

  lemma MenuEfectividadDispatched()
    ensures Dispatch(Menu[6]) == Some(6)
  {
    DispatchTo(6, " de Intervenciones");
  }

  /** Each menu option takes its own route: the seven options give the seven result keys. */
  lemma MenuDispatch(i: nat)
    requires i < |Menu|
    ensures Dispatch(Menu[i]) == Some(i)
  {
    if i == 0 {
      MenuAlertasDispatched();
    } else if i == 1 {
      MenuRecomendadorDispatched();
    } else if i == 2 {
      MenuPatronesDispatched();
    } else if i == 3 {
      MenuRotacionDispatched();
    } else if i == 4 {
      MenuIncidentesDispatched();
    } else if i == 5 {
      MenuResilienciaDispatched();
    } else {
      MenuEfectividadDispatched();
    }
  }

  /** Runs an analysis for the selected name at a given position. */
  type Runner = (Analysis, nat) -> Result<Table, Error>

  /** The analyses on the combined table `t`, the j-th selected one drawing from `draws(j)`. */
  function Analyses(t: Table, draws: nat -> Oracle): Runner {
    (a: Analysis, j: nat) => Run(a, t, draws(j))
  }

  /** The route each selected name takes, in selection order: the first pattern it contains, if any. */
  function Branches(sel: seq<string>): (bs: seq<Option<Route>>)
    ensures |bs| == |sel|
    ensures forall j :: 0 <= j < |sel| ==> (bs[j].Some? <==> Dispatch(sel[j]).Some?)
    ensures forall j :: 0 <= j < |sel| && bs[j].Some? ==> bs[j].value == Routes[Dispatch(sel[j]).value] && bs[j].value.key in ResultKeys
  {
    seq(|sel|, j requires 0 <= j < |sel| =>
      match Dispatch(sel[j])
      case None => None
      case Some(k) => Some(Routes[k]))
  }

  /**
   * The loop over the selected names (app.py:234-251), given the route each
   * one takes: each routed name runs its analysis, later results overwrite
   * earlier ones under the same key, names that take no route are ignored, and
   * the first analysis that raises aborts the loop.
   */
  function RunAll(bs: seq<Option<Route>>, run: Runner): (r: Result<map<string, Table>, Error>)
    ensures r.Success? ==> forall k :: k in r.value ==> exists j :: 0 <= j < |bs| && bs[j].Some? && bs[j].value.key == k
    decreases |bs|
  {
    if |bs| == 0 then Success(map[])
    else
      var last := |bs| - 1;
      match RunAll(bs[..last], run)
      case Failure(e) => Failure(e)
      case Success(m) =>
        match bs[last]
        case None => Success(m)
        case Some(route) =>
          match run(route.analysis, last)
          case Failure(e) => Failure(e)
          case Success(x) =>
            assert forall j :: 0 <= j < last ==> bs[..last][j] == bs[j];
            Success(m[route.key := x])
  }

  /** The name at position j takes a route, and that route's analysis raises. */
  predicate RaisesAt(bs: seq<Option<Route>>, j: nat, run: Runner)
    requires j < |bs|
  {
    bs[j].Some? && run(bs[j].value.analysis, j).Failure?
  }

  /** The loop fails exactly when one of the selected analyses raises. */
  lemma {:induction false} RunAllFails(bs: seq<Option<Route>>, run: Runner)
    ensures RunAll(bs, run).Failure? <==> exists j :: 0 <= j < |bs| && RaisesAt(bs, j, run)
    decreases |bs|
  {
    if |bs| > 0 {
      var last := |bs| - 1;
      var init := bs[..last];
      RunAllFails(init, run);
      if RunAll(init, run).Failure? {
        var j :| 0 <= j < |init| && RaisesAt(init, j, run);
        assert init[j] == bs[j];
        assert RaisesAt(bs, j, run);
      } else {
        forall j | 0 <= j < last
          ensures !RaisesAt(bs, j, run)
        {
          assert init[j] == bs[j];
          assert !RaisesAt(init, j, run);
        }
        assert RunAll(bs, run).Failure? <==> RaisesAt(bs, last, run);
      }
    }
  }

  /** Whether running a selection on a table raises depends on the table and the selection, never on the draws. */
  lemma SelectionFailureIgnoresDraws(sel: seq<string>, t: Table, d1: nat -> Oracle, d2: nat -> Oracle)
    ensures RunAll(Branches(sel), Analyses(t, d1)).Failure? <==> RunAll(Branches(sel), Analyses(t, d2)).Failure?
  {
    var bs := Branches(sel);
    RunAllFails(bs, Analyses(t, d1));
    RunAllFails(bs, Analyses(t, d2));
    forall j | 0 <= j < |bs| && bs[j].Some?
      ensures RaisesAt(bs, j, Analyses(t, d1)) <==> RaisesAt(bs, j, Analyses(t, d2))
    {
      RunFailureIgnoresDraws(bs[j].value.analysis, t, d1(j), d2(j));
    }
    if RunAll(bs, Analyses(t, d1)).Failure? {
      var j :| 0 <= j < |bs| && RaisesAt(bs, j, Analyses(t, d1));
      assert RaisesAt(bs, j, Analyses(t, d2));
    }
    if RunAll(bs, Analyses(t, d2)).Failure? {
      var j :| 0 <= j < |bs| && RaisesAt(bs, j, Analyses(t, d2));
      assert RaisesAt(bs, j, Analyses(t, d1));
    }
  }

  /** The name at position j takes the route whose result is stored under `key`. */
  predicate Selects(bs: seq<Option<Route>>, j: nat, key: string)
    requires j < |bs|
  {
    bs[j].Some? && bs[j].value.key == key
  }

  /** One step of the loop: the last selected name adds at most its own route's key. */
  lemma RunAllStepKeys(bs: seq<Option<Route>>, run: Runner, key: string)
    requires |bs| > 0 && RunAll(bs, run).Success?
    ensures RunAll(bs[..|bs| - 1], run).Success?
    ensures key in RunAll(bs, run).value <==> key in RunAll(bs[..|bs| - 1], run).value || Selects(bs, |bs| - 1, key)
  {
  }

  /** A successful loop holds a result exactly for the keys of the routes the selected names take. */
  lemma {:induction false} RunAllKeys(bs: seq<Option<Route>>, run: Runner, key: string)
    requires RunAll(bs, run).Success?
    ensures key in RunAll(bs, run).value <==> exists j :: 0 <= j < |bs| && Selects(bs, j, key)
    decreases |bs|
  {
    if |bs| > 0 {
      var last := |bs| - 1;
      var init := bs[..last];
      RunAllStepKeys(bs, run, key);
      RunAllKeys(init, run, key);
      if key in RunAll(bs, run).value {
        if !Selects(bs, last, key) {
          var j :| 0 <= j < |init| && Selects(init, j, key);
          assert init[j] == bs[j];
          assert Selects(bs, j, key);
        }
      } else {
        forall j | 0 <= j < |bs|
          ensures !Selects(bs, j, key)
        {
          if j < last {
            assert init[j] == bs[j];
            assert !Selects(init, j, key);
          }
        }
      }
    }
  }

  /** Under each key a successful loop holds the table of the last selected name that takes that key's route. */
  lemma {:induction false} RunAllLastWins(bs: seq<Option<Route>>, run: Runner, j: nat)
    requires RunAll(bs, run).Success?
    requires j < |bs| && bs[j].Some?
    requires forall m :: j < m < |bs| ==> !Selects(bs, m, bs[j].value.key)
    ensures bs[j].value.key in RunAll(bs, run).value
    ensures run(bs[j].value.analysis, j).Success?
    ensures RunAll(bs, run).value[bs[j].value.key] == run(bs[j].value.analysis, j).value
    decreases |bs|
  {
    var last := |bs| - 1;
    var init := bs[..last];
    var key := bs[j].value.key;
    assert RunAll(init, run).Success?;
    if j < last {
      assert init[j] == bs[j];
      forall m | j < m < |init|
        ensures !Selects(init, m, key)
      {
        assert init[m] == bs[m];
        assert !Selects(bs, m, key);
      }
      RunAllLastWins(init, run, j);
      assert !Selects(bs, last, key);
    }
  }

  /** A successful run of a selection stores results only under the seven result keys. */
  lemma SelectionKeys(sel: seq<string>, run: Runner)
    requires RunAll(Branches(sel), run).Success?
    ensures RunAll(Branches(sel), run).value.Keys <= ResultKeys
  {
    var bs := Branches(sel);
    forall key | key in RunAll(bs, run).value
      ensures key in ResultKeys
    {
      RunAllKeys(bs, run, key);
      var j :| 0 <= j < |bs| && Selects(bs, j, key);
    }
  }

  /** The combined table is loaded. */
  predicate HasTable(s: State) {
    CombinedData in s && s[CombinedData].Data?
  }

  /**
   * The "Ejecutar" button: with a combined table and a non-empty selection, a
   * loop that completes stores its results (replacing earlier ones); an analysis
   * that raises leaves the session as it was.
   */
  function RunSelected(s: State, sel: seq<string>, draws: nat -> Oracle): (r: State)
    ensures forall k :: k != AnalysisResults ==> (k in r <==> k in s) && (k in s ==> r[k] == s[k])
    ensures !HasTable(s) || |sel| == 0 ==> r == s
    ensures HasTable(s) && |sel| > 0 && RunAll(Branches(sel), Analyses(s[CombinedData].table, draws)).Failure? ==> r == s
    ensures HasTable(s) && |sel| > 0 && RunAll(Branches(sel), Analyses(s[CombinedData].table, draws)).Success? ==>
      AnalysisResults in r && r[AnalysisResults] == Results(RunAll(Branches(sel), Analyses(s[CombinedData].table, draws)).value)
  {
    if !HasTable(s) || |sel| == 0 then s
    else
      match RunAll(Branches(sel), Analyses(s[CombinedData].table, draws))
      case Failure(_) => s
      case Success(m) => s[AnalysisResults := Results(m)]
  }

  // ---------------------------------------------------------------------------
  // The session invariant
  // ---------------------------------------------------------------------------

  /**
   * What the session keeps consistent: the three upload keys appear together,
   * the combined table is well formed with as many rows as its records count,
   * the file count is at least the number of records, and results only exist
   * next to a combined table.
   */
  ghost predicate Consistent(s: State) {
    && (CombinedData in s <==> ProcessedFiles in s)
    && (CombinedData in s <==> FileCount in s)
    && (AnalysisResults in s ==> CombinedData in s && s[AnalysisResults].Results?)
    && (CombinedData in s ==>
      && s[CombinedData].Data? && s[ProcessedFiles].Files? && s[FileCount].Count?
      && WellFormed(s[CombinedData].table)
      && 0 < |s[ProcessedFiles].records| <= s[FileCount].n
      && |s[CombinedData].table.rows| == RecordRows(s[ProcessedFiles].records))
  }

  /** What the user can do. */
  datatype Action =
    | UploadFiles(uploads: seq<Upload>)
    | DemoButton(size: DemoSize)
    | ClearAll
    | RunAnalyses(selection: seq<string>)

  /** The session after one action, with the sources and draws that action consults. */
  function Step(s: State, a: Action, src: Sources, draws: nat -> Oracle): (r: State)
    ensures forall k :: k !in ClearedKeys ==> (k in r <==> k in s) && (k in s ==> r[k] == s[k])
  {
    match a
    case UploadFiles(us) => Ingest(s, us, Read(src))
    case DemoButton(size) => LoadDemo(s, size, src.seeded)
    case ClearAll => ClearSessionState(s)
    case RunAnalyses(sel) => RunSelected(s, sel, draws)
  }

  /** A fresh session, with none of the four keys, is consistent. */
  lemma FreshConsistent(s: State)
    requires forall k :: k in ClearedKeys ==> k !in s
    ensures Consistent(s)
  {
  }

  /** Uploading keeps the session consistent. */
  lemma IngestKeepsConsistent(s: State, us: seq<Upload>, src: Sources)
    requires Consistent(s)
    ensures Consistent(Ingest(s, us, Read(src)))
  {
    var read := Read(src);
    if Accepted(us, read) {
      var r := Ingest(s, us, read);
      assert r[FileCount].n == |us|;
      assert 0 < |r[ProcessedFiles].records|;
    }
  }

  /** Loading a demo table keeps the session consistent. */
  lemma LoadDemoKeepsConsistent(s: State, size: DemoSize, seeded: nat -> Oracle)
    requires Consistent(s)
    ensures Consistent(LoadDemo(s, size, seeded))
  {
    var r := LoadDemo(s, size, seeded);
    var recs := r[ProcessedFiles].records;
    assert recs[..0] == [];
    assert RecordRows(recs) == recs[0].rows;
  }

  /** Clearing keeps the session consistent. */
  lemma ClearKeepsConsistent(s: State)
    requires Consistent(s)
    ensures Consistent(ClearSessionState(s))
  {
  }

  /** Running analyses keeps the session consistent. */
  lemma RunSelectedKeepsConsistent(s: State, sel: seq<string>, draws: nat -> Oracle)
    requires Consistent(s)
    ensures Consistent(RunSelected(s, sel, draws))
  {
  }

  /** Every action keeps the session consistent. */
  lemma StepKeepsConsistent(s: State, a: Action, src: Sources, draws: nat -> Oracle)
    requires Consistent(s)
    ensures Consistent(Step(s, a, src, draws))
  {
    match a
    case UploadFiles(us) => IngestKeepsConsistent(s, us, src);
    case DemoButton(size) => LoadDemoKeepsConsistent(s, size, src.seeded);
    case ClearAll => ClearKeepsConsistent(s);
    case RunAnalyses(sel) => RunSelectedKeepsConsistent(s, sel, draws);
  }
}
