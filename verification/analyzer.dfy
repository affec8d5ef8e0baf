/**
 * The scoring functions of `PsychosocialAnalyzer` (modules/ml_applications.py).
 * Each takes a table and returns a copy with derived columns added; the ones
 * whose pandas operations can raise return a `Result`. Random draws come from
 * an oracle (see `Draws`).
 */
module Analyzer {
  import opened Wrappers
  import opened Text
  import opened Tables
  import opened Draws

  // Input columns the rules read.
  const Estres: string := "nivel_estres"
  const Demandas: string := "demandas_jornada"
  const Satisfaccion: string := "satisfaccion_laboral"

  // Columns the scoring functions add.
  const RiesgoAlto: string := "riesgo_alto"
  const Recomendacion: string := "recomendacion"
  const EstresEncoded: string := "estres_encoded"
  const DemandasEncoded: string := "demandas_encoded"
  const Cluster: string := "cluster"
  const RiesgoRotacion: string := "riesgo_rotacion"
  const ProbabilidadRotacion: string := "probabilidad_rotacion"
  const RiesgoIncidentes: string := "riesgo_incidentes"
  const ScoreResiliencia: string := "score_resiliencia"
  const PerfilResiliencia: string := "perfil_resiliencia"
  const MejoraEsperada: string := "mejora_esperada"
  const IntervencionRecomendada: string := "intervencion_recomendada"

  // ---------------------------------------------------------------------------
  // Early-warning and incident flags: `str.contains('Alto|Muy Alto', na=False)`
  // ---------------------------------------------------------------------------

  /** The regular expression `Alto|Muy Alto` found somewhere in `s`. */
  predicate MatchesAltoPattern(s: string) {
    Contains(s, "Alto") || Contains(s, "Muy Alto")
  }

  /** The cell holds text with the case-sensitive substring "Alto". */
  predicate MentionsAlto(v: Cell) {
    v.Some? && v.value.Text? && Contains(v.value.s, "Alto")
  }

  /** The second alternative of the pattern adds nothing: "Muy Alto" contains "Alto". */
  lemma AltoPatternIsAlto(s: string)
    ensures MatchesAltoPattern(s) <==> Contains(s, "Alto")
  {
    if Contains(s, "Muy Alto") {
      assert OccursAt("Muy Alto", "Alto", 4);
      ContainsTransitive(s, "Muy Alto", "Alto");
    }
  }

  /** `str.contains` with `na=False` on one cell: missing and numeric cells do not match. */
  function StrContainsAlto(v: Cell): bool {
    match v
    case Some(Text(s)) => MatchesAltoPattern(s)
    case _ => false
  }

  lemma StrContainsAltoIsMention(v: Cell)
    ensures StrContainsAlto(v) <==> MentionsAlto(v)
  {
    if v.Some? && v.value.Text? {
      AltoPatternIsAlto(v.value.s);
    }
  }

  /**
   * The shared rule of `alerta_temprana` and `predictor_incidentes`, writing the
   * flag into column `out`. pandas refuses the `.str` accessor on a column whose
   * dtype holds no strings; without dtypes, the model raises when a non-empty
   * column has no text cell at all.
   */
  function StressFlags(t: Table, out: string, draw: Oracle): (r: Result<Table, Error>)
    ensures r.Failure? <==> Estres in t.columns && |t.rows| > 0 && !HasText(t, Estres)
    ensures r.Success? ==> Extends(t, r.value, {out}) && (WellFormed(t) ==> WellFormed(r.value))
    ensures r.Success? ==> forall i :: 0 <= i < |t.rows| ==> IsFlag(CellOf(r.value.rows[i], out))
    ensures r.Success? && Estres in t.columns ==>
      forall i :: 0 <= i < |t.rows| ==>
        (CellOf(r.value.rows[i], out) == Flag(true) <==> MentionsAlto(CellOf(t.rows[i], Estres)))
  {
    var n := |t.rows|;
    if Estres in t.columns then
      if n > 0 && !HasText(t, Estres) then Failure(NoTextValues(Estres))
      else
        assert forall i :: 0 <= i < n ==>
          (StrContainsAlto(CellOf(t.rows[i], Estres)) <==> MentionsAlto(CellOf(t.rows[i], Estres))) by {
          forall i | 0 <= i < n {
            StrContainsAltoIsMention(CellOf(t.rows[i], Estres));
          }
        }
        Success(AddColumn(t, out, MentionFlags(t)))
    else
      Success(AddColumn(t, out, CoinFlags(n, out, draw)))
  }

  /** `np.where(df['nivel_estres'].str.contains('Alto|Muy Alto', na=False), 1, 0)`. */
  function MentionFlags(t: Table): seq<Cell> {
    seq(|t.rows|, i requires 0 <= i < |t.rows| => Flag(StrContainsAlto(CellOf(t.rows[i], Estres))))
  }

  /** `np.random.choice([0, 1], n)`: a 0/1 draw per row. */
  function CoinFlags(n: nat, column: string, draw: Oracle): (cells: seq<Cell>)
    ensures |cells| == n && forall i :: 0 <= i < n ==> IsFlag(cells[i])
  {
    var cells := seq(n, i requires 0 <= i < n => Some(Num(Choice([0.0, 1.0], draw(column, i)))));
    assert forall i :: 0 <= i < n ==> cells[i] == Some(Num(Choice([0.0, 1.0], draw(column, i))));
    cells
  }

  /** `alerta_temprana`: `riesgo_alto` is 1 exactly for the rows whose stress level mentions "Alto". */
  function AlertaTemprana(t: Table, draw: Oracle): (r: Result<Table, Error>)
    ensures r.Failure? <==> Estres in t.columns && |t.rows| > 0 && !HasText(t, Estres)
    ensures r.Success? ==> Extends(t, r.value, {RiesgoAlto}) && (WellFormed(t) ==> WellFormed(r.value))
    ensures r.Success? ==> forall i :: 0 <= i < |t.rows| ==> IsFlag(CellOf(r.value.rows[i], RiesgoAlto))
    ensures r.Success? && Estres in t.columns ==>
      forall i :: 0 <= i < |t.rows| ==>
        (CellOf(r.value.rows[i], RiesgoAlto) == Flag(true) <==> MentionsAlto(CellOf(t.rows[i], Estres)))
  {
    StressFlags(t, RiesgoAlto, draw)
  }

  /**
   * With the stress column present the alert is idempotent: a second run
   * recomputes the same flags from the untouched stress levels and returns the
   * same table, whatever the draws. (Without the column the flags are fresh
   * coin flips, so no such law holds there.)
   */
  lemma AlertIdempotent(t: Table, d1: Oracle, d2: Oracle)
    requires Estres in t.columns && AlertaTemprana(t, d1).Success?
    ensures AlertaTemprana(AlertaTemprana(t, d1).value, d2) == AlertaTemprana(t, d1)
  {
    AlertIsReflag(t, d1);
    var r := AddColumn(t, RiesgoAlto, MentionFlags(t));
    ReflagKeepsStress(t);
    AlertIsReflag(r, d2);
    AddColumnSame(r, RiesgoAlto, MentionFlags(t));
  }

  /** With the stress column present, a successful alert is the column assignment of the mention flags. */
  lemma AlertIsReflag(t: Table, d: Oracle)
    requires Estres in t.columns && AlertaTemprana(t, d).Success?
    ensures AlertaTemprana(t, d) == Success(AddColumn(t, RiesgoAlto, MentionFlags(t)))
  {
  }

  /** Writing the flags keeps the stress column, so the same flags come out again, already in place. */
  lemma ReflagKeepsStress(t: Table)
    requires Estres in t.columns && (|t.rows| > 0 ==> HasText(t, Estres))
    ensures var r := AddColumn(t, RiesgoAlto, MentionFlags(t));
      && Estres in r.columns && (|r.rows| > 0 ==> HasText(r, Estres))
      && MentionFlags(r) == MentionFlags(t)
      && RiesgoAlto in r.columns
      && forall i :: 0 <= i < |r.rows| ==> RiesgoAlto in r.rows[i] && r.rows[i][RiesgoAlto] == MentionFlags(t)[i]
  {
    var r := AddColumn(t, RiesgoAlto, MentionFlags(t));
    assert Estres !in {RiesgoAlto};
    KeptColumn(t, r, {RiesgoAlto}, Estres);
    SameStressSameFlags(t, r);
    AddColumnWrites(t, RiesgoAlto, MentionFlags(t));
  }

  /** Tables that agree on the stress column agree on its text and on its mention flags. */
  lemma SameStressSameFlags(t: Table, r: Table)
    requires |r.rows| == |t.rows|
    requires forall i :: 0 <= i < |t.rows| ==> CellOf(r.rows[i], Estres) == CellOf(t.rows[i], Estres)
    ensures HasText(t, Estres) ==> HasText(r, Estres)
    ensures MentionFlags(r) == MentionFlags(t)
  {
    if HasText(t, Estres) {
      var w :| 0 <= w < |t.rows| && IsText(CellOf(t.rows[w], Estres));
      assert IsText(CellOf(r.rows[w], Estres));
    }
  }

  /** `predictor_incidentes`: the same rule, written to `riesgo_incidentes`. */
  function PredictorIncidentes(t: Table, draw: Oracle): (r: Result<Table, Error>)
    ensures r.Failure? <==> Estres in t.columns && |t.rows| > 0 && !HasText(t, Estres)
    ensures r.Success? ==> Extends(t, r.value, {RiesgoIncidentes}) && (WellFormed(t) ==> WellFormed(r.value))
    ensures r.Success? ==> forall i :: 0 <= i < |t.rows| ==> IsFlag(CellOf(r.value.rows[i], RiesgoIncidentes))
    ensures r.Success? && Estres in t.columns ==>
      forall i :: 0 <= i < |t.rows| ==>
        (CellOf(r.value.rows[i], RiesgoIncidentes) == Flag(true) <==> MentionsAlto(CellOf(t.rows[i], Estres)))
  {
    StressFlags(t, RiesgoIncidentes, draw)
  }

  /**
   * Whenever the stress column is present the incident flag equals the
   * early-warning flag row by row, whatever the draws; both raise on the same tables.
   */
  lemma IncidentsMatchAlerts(t: Table, d1: Oracle, d2: Oracle)
    ensures AlertaTemprana(t, d1).Success? <==> PredictorIncidentes(t, d2).Success?
    ensures AlertaTemprana(t, d1).Success? && Estres in t.columns ==>
      forall i :: 0 <= i < |t.rows| ==>
        CellOf(AlertaTemprana(t, d1).value.rows[i], RiesgoAlto)
        == CellOf(PredictorIncidentes(t, d2).value.rows[i], RiesgoIncidentes)
  {
  }

  /** Stress levels "Alto", "Bajo", "Muy Alto", "Medio" and a missing one flag as 1, 0, 1, 0, 0. */
  lemma AlertExample(t: Table, draw: Oracle)
    requires Estres in t.columns && |t.rows| == 5
    requires CellOf(t.rows[0], Estres) == Some(Text("Alto"))
    requires CellOf(t.rows[1], Estres) == Some(Text("Bajo"))
    requires CellOf(t.rows[2], Estres) == Some(Text("Muy Alto"))
    requires CellOf(t.rows[3], Estres) == Some(Text("Medio"))
    requires CellOf(t.rows[4], Estres) == None
    ensures AlertaTemprana(t, draw).Success?
    ensures var r := AlertaTemprana(t, draw).value;
      && CellOf(r.rows[0], RiesgoAlto) == Flag(true)
      && CellOf(r.rows[1], RiesgoAlto) == Flag(false)
      && CellOf(r.rows[2], RiesgoAlto) == Flag(true)
      && CellOf(r.rows[3], RiesgoAlto) == Flag(false)
      && CellOf(r.rows[4], RiesgoAlto) == Flag(false)
  {
    assert IsText(CellOf(t.rows[0], Estres));
    assert OccursAt("Alto", "Alto", 0);
    assert OccursAt("Muy Alto", "Alto", 4);
    MissingCharNotContained("Bajo", "Alto", 'A');
    MissingCharNotContained("Medio", "Alto", 'A');
    var r := AlertaTemprana(t, draw).value;
    assert IsFlag(CellOf(r.rows[1], RiesgoAlto));
    assert IsFlag(CellOf(r.rows[3], RiesgoAlto));
    assert IsFlag(CellOf(r.rows[4], RiesgoAlto));
  }

  // ---------------------------------------------------------------------------
  // Intervention recommender: `generar_recomendacion`
  // ---------------------------------------------------------------------------

  const Capacitacion: string := "Capacitación manejo de estrés"
  const RevisionCarga: string := "Revisión carga laboral"
  const Reconocimiento: string := "Programa de reconocimiento"
  const Monitoreo: string := "Monitoreo periódico"

  /** `fila.get(c, default)`: the row's cell when the table has column `c`, else the default. */
  function Get(columns: seq<string>, row: Row, c: string, default: Value): Cell {
    if c in columns then CellOf(row, c) else Some(default)
  }

  /** `value in ['Alto', 'Muy Alto']`: exact membership, no substring search. */
  predicate IsHighLevel(v: Cell) {
    v == Some(Text("Alto")) || v == Some(Text("Muy Alto"))
  }

  /** `value < 5` on a number; a missing value (NaN) compares false. */
  predicate BelowFive(v: Cell) {
    v.Some? && v.value.Num? && v.value.x < 5.0
  }

  /** The stress rule fires: the column is present and the level is exactly "Alto" or "Muy Alto". */
  predicate StressRule(columns: seq<string>, row: Row) {
    Estres in columns && IsHighLevel(CellOf(row, Estres))
  }

  /** The workload rule fires: the same test on `demandas_jornada`. */
  predicate WorkloadRule(columns: seq<string>, row: Row) {
    Demandas in columns && IsHighLevel(CellOf(row, Demandas))
  }

  /** The satisfaction rule fires: the column is present and holds a number below 5. */
  predicate SatisfactionRule(columns: seq<string>, row: Row) {
    Satisfaccion in columns && BelowFive(CellOf(row, Satisfaccion))
  }

  /** The position of a phrase in rule order: stress, workload, satisfaction. */
  function RuleRank(p: string): int {
    if p == Capacitacion then 0 else if p == RevisionCarga then 1 else if p == Reconocimiento then 2 else 3
  }

  /** The phrases of the rules that fire, in rule order. */
  function FiredPhrases(stress: bool, workload: bool, lowSatisfaction: bool): (ps: seq<string>)
    ensures |ps| <= 3
    ensures (Capacitacion in ps <==> stress) && (RevisionCarga in ps <==> workload)
    ensures Reconocimiento in ps <==> lowSatisfaction
    ensures forall i, j :: 0 <= i < j < |ps| ==> RuleRank(ps[i]) < RuleRank(ps[j])
    ensures |ps| == 0 <==> !stress && !workload && !lowSatisfaction
  {
    (if stress then [Capacitacion] else [])
    + (if workload then [RevisionCarga] else [])
    + (if lowSatisfaction then [Reconocimiento] else [])
  }

  /** None of the phrases holds the ", " that joins them. */
  lemma PhrasesHaveNoSeparator()
    ensures !Contains(Capacitacion, Separator) && !Contains(RevisionCarga, Separator)
    ensures !Contains(Reconocimiento, Separator) && !Contains(Monitoreo, Separator)
  {
    assert !Contains(Capacitacion, Separator) by {
      MissingCharNotContained(Capacitacion, Separator, ',');
    }
    assert !Contains(RevisionCarga, Separator) by {
      MissingCharNotContained(RevisionCarga, Separator, ',');
    }
    assert !Contains(Reconocimiento, Separator) by {
      MissingCharNotContained(Reconocimiento, Separator, ',');
    }
    assert !Contains(Monitoreo, Separator) by {
      MissingCharNotContained(Monitoreo, Separator, ',');
    }
  }

  /** The fired phrases, joined, split back into themselves and never read as the fallback. */
  lemma JoinedPhrases(stress: bool, workload: bool, lowSatisfaction: bool)
    requires stress || workload || lowSatisfaction
    ensures var ps := FiredPhrases(stress, workload, lowSatisfaction);
      && |ps| > 0
      && Split(Join(ps)) == ps
      && |Join(ps)| > 0 && Join(ps) != Monitoreo
  {
    var ps := FiredPhrases(stress, workload, lowSatisfaction);
    assert forall i :: 0 <= i < |ps| ==> ps[i] == Capacitacion || ps[i] == RevisionCarga || ps[i] == Reconocimiento;
    PhrasesHaveNoSeparator();
    SplitJoin(ps);
    JoinStartsWithFirst(ps);
    assert Join(ps)[0] == ps[0][0] != Monitoreo[0];
  }

  /**
   * `generar_recomendacion` for one row: the fired phrases joined by ", ", or
   * "Monitoreo periódico" when none fires. Comparing a text satisfaction with 5
   * raises a TypeError.
   */
  function RowRecommendation(columns: seq<string>, row: Row): (r: Result<string, Error>)
    ensures r.Failure? <==> Satisfaccion in columns && IsText(CellOf(row, Satisfaccion))
    ensures r.Success? ==> |r.value| > 0
    ensures r.Success? ==>
      (r.value == Monitoreo <==>
        !StressRule(columns, row) && !WorkloadRule(columns, row) && !SatisfactionRule(columns, row))
    ensures r.Success? && r.value != Monitoreo ==>
      Split(r.value) == FiredPhrases(StressRule(columns, row), WorkloadRule(columns, row), SatisfactionRule(columns, row))
  {
    var stress := Get(columns, row, Estres, Text(""));
    var workload := Get(columns, row, Demandas, Text(""));
    var satisfaction := Get(columns, row, Satisfaccion, Num(5.0));
    if IsText(satisfaction) then Failure(TextComparedWithNumber(Satisfaccion))
    else
      var fired := IsHighLevel(stress) || IsHighLevel(workload) || BelowFive(satisfaction);
      if fired then
        JoinedPhrases(IsHighLevel(stress), IsHighLevel(workload), BelowFive(satisfaction));
        Success(Join(FiredPhrases(IsHighLevel(stress), IsHighLevel(workload), BelowFive(satisfaction))))
      else Success(Monitoreo)
  }

  /** A missing satisfaction (absent column or missing value) never yields "Programa de reconocimiento". */
  lemma MissingSatisfactionNeverRecognised(columns: seq<string>, row: Row)
    requires Satisfaccion !in columns || CellOf(row, Satisfaccion) == None
    ensures RowRecommendation(columns, row).Success?
    ensures Reconocimiento !in Split(RowRecommendation(columns, row).value)
  {
    var r := RowRecommendation(columns, row).value;
    if r == Monitoreo {
      PhrasesHaveNoSeparator();
      SplitPiece(Monitoreo);
    }
  }

  /** The two stress rules agree on the four levels the program uses, and differ on other text. */
  lemma StressRulesCompared()
    ensures forall level :: level in ["Bajo", "Medio", "Alto", "Muy Alto"] ==>
      (IsHighLevel(Some(Text(level))) <==> MentionsAlto(Some(Text(level))))
    ensures MentionsAlto(Some(Text("Alto riesgo"))) && !IsHighLevel(Some(Text("Alto riesgo")))
  {
    MissingCharNotContained("Bajo", "Alto", 'A');
    MissingCharNotContained("Medio", "Alto", 'A');
    assert OccursAt("Alto", "Alto", 0);
    assert OccursAt("Muy Alto", "Alto", 4);
    assert OccursAt("Alto riesgo", "Alto", 0);
  }

  /**
   * `recomendador_intervenciones`: every row gets its recommendation; an empty
   * table is returned as it is, with no `recomendacion` column.
   */
  function Recomendador(t: Table): (r: Result<Table, Error>)
    ensures |t.rows| == 0 ==> r == Success(t)
    ensures r.Failure? <==> |t.rows| > 0 && Satisfaccion in t.columns && HasText(t, Satisfaccion)
    ensures r.Success? && |t.rows| > 0 ==>
      && Extends(t, r.value, {Recomendacion})
      && (WellFormed(t) ==> WellFormed(r.value))
      && forall i :: 0 <= i < |t.rows| ==>
        && RowRecommendation(t.columns, t.rows[i]).Success?
        && CellOf(r.value.rows[i], Recomendacion) == Some(Text(RowRecommendation(t.columns, t.rows[i]).value))
  {
    var n := |t.rows|;
    if n == 0 then Success(t)
    else if exists i :: 0 <= i < n && RowRecommendation(t.columns, t.rows[i]).Failure? then
      Failure(TextComparedWithNumber(Satisfaccion))
    else
      Success(AddColumn(t, Recomendacion,
        seq(n, i requires 0 <= i < n => Some(Text(RowRecommendation(t.columns, t.rows[i]).value)))))
  }

  // ---------------------------------------------------------------------------
  // Stress patterns: label encoding and k-means, with the constant fallback
  // ---------------------------------------------------------------------------

  predicate IsClusterId(v: Cell) {
    v == Some(Num(0.0)) || v == Some(Num(1.0)) || v == Some(Num(2.0))
  }

  /** A label-encoder code: a whole number below the row count. */
  predicate IsCode(v: Cell, n: nat) {
    v.Some? && v.value.Num? && 0.0 <= v.value.x < n as real && v.value.x == v.value.x.Floor as real
  }

  /** The draw-chosen codes a label encoder assigns to a column of `n` rows. */
  function Codes(n: nat, column: string, draw: Oracle): (codes: seq<Cell>)
    ensures |codes| == n && forall i :: 0 <= i < n ==> IsCode(codes[i], n)
  {
    var codes := seq(n, i requires 0 <= i < n => Some(Num(RandInt(0, n, draw(column, i)) as real)));
    assert forall i :: 0 <= i < n ==> codes[i] == Some(Num(RandInt(0, n, draw(column, i)) as real));
    codes
  }

  /** The columns `patrones_estres` adds to `t`. */
  function PatternColumns(t: Table): set<string> {
    {Cluster}
    + (if Estres in t.columns then {EstresEncoded} else {})
    + (if Demandas in t.columns then {DemandasEncoded} else {})
  }

  /** `df[encoded] = le.fit_transform(df[column].astype(str))` when `column` is present. */
  function EncodeIfPresent(t: Table, column: string, encoded: string, draw: Oracle): (r: Table)
    ensures Extends(t, r, if column in t.columns then {encoded} else {})
    ensures WellFormed(t) ==> WellFormed(r)
    ensures column in t.columns ==> forall i :: 0 <= i < |t.rows| ==> IsCode(CellOf(r.rows[i], encoded), |t.rows|)
  {
    if column in t.columns then AddColumn(t, encoded, Codes(|t.rows|, encoded, draw)) else t
  }

  /** The k-means labels in 0..2 when it runs, the fallback 0 otherwise. */
  function ClusterColumn(n: nat, kmeans: bool, draw: Oracle): (cells: seq<Cell>)
    ensures |cells| == n
    ensures forall i :: 0 <= i < n ==> IsClusterId(cells[i])
    ensures !kmeans ==> forall i :: 0 <= i < n ==> cells[i] == Some(Num(0.0))
  {
    var cells := seq(n, i requires 0 <= i < n =>
      if kmeans then Some(Num(RandInt(0, 3, draw(Cluster, i)) as real)) else Some(Num(0.0)));
    assert forall i :: 0 <= i < n ==>
      cells[i] == (if kmeans then Some(Num(RandInt(0, 3, draw(Cluster, i)) as real)) else Some(Num(0.0)));
    cells
  }

  /**
   * `patrones_estres`: each present input column gets an encoded copy; k-means
   * with three clusters runs only when both are present, and raises (caught,
   * falling back to cluster 0) on fewer than three rows.
   */
  function PatronesEstres(t: Table, draw: Oracle): (r: Table)
    ensures Extends(t, r, PatternColumns(t))
    ensures WellFormed(t) ==> WellFormed(r)
    ensures forall i :: 0 <= i < |t.rows| ==> IsClusterId(CellOf(r.rows[i], Cluster))
    ensures !(Estres in t.columns && Demandas in t.columns) || |t.rows| < 3 ==>
      forall i :: 0 <= i < |t.rows| ==> CellOf(r.rows[i], Cluster) == Some(Num(0.0))
    ensures Estres in t.columns ==>
      forall i :: 0 <= i < |t.rows| ==> IsCode(CellOf(r.rows[i], EstresEncoded), |t.rows|)
    ensures Demandas in t.columns ==>
      forall i :: 0 <= i < |t.rows| ==> IsCode(CellOf(r.rows[i], DemandasEncoded), |t.rows|)
  {
    var n := |t.rows|;
    var t1 := EncodeIfPresent(t, Estres, EstresEncoded, draw);
    var t2 := EncodeIfPresent(t1, Demandas, DemandasEncoded, draw);
    var r := AddColumn(t2, Cluster, ClusterColumn(n, Estres in t.columns && Demandas in t.columns && n >= 3, draw));
    PatternExtends(t, t1, t2, r, draw);
    PatternCodes(t, t1, t2, r, draw);
    r
  }

  /** The three assignments of `patrones_estres` add exactly the pattern columns. */
  lemma PatternExtends(t: Table, t1: Table, t2: Table, r: Table, draw: Oracle)
    requires t1 == EncodeIfPresent(t, Estres, EstresEncoded, draw)
    requires t2 == EncodeIfPresent(t1, Demandas, DemandasEncoded, draw)
    requires |t2.rows| == |t.rows|
    requires r == AddColumn(t2, Cluster, ClusterColumn(|t.rows|, Estres in t.columns && Demandas in t.columns && |t.rows| >= 3, draw))
    ensures Extends(t, r, PatternColumns(t))
  {
    var a: set<string> := if Estres in t.columns then {EstresEncoded} else {};
    var b: set<string> := if Demandas in t.columns then {DemandasEncoded} else {};
    assert Demandas in t1.columns <==> Demandas in t.columns;
    ExtendsTrans(t, t1, t2, a, b);
    ExtendsTrans(t, t2, r, a + b, {Cluster});
    assert PatternColumns(t) == a + b + {Cluster};
  }

  /** The encoded columns survive the later assignments of `patrones_estres`. */
  lemma PatternCodes(t: Table, t1: Table, t2: Table, r: Table, draw: Oracle)
    requires t1 == EncodeIfPresent(t, Estres, EstresEncoded, draw)
    requires t2 == EncodeIfPresent(t1, Demandas, DemandasEncoded, draw)
    requires |t2.rows| == |t.rows|
    requires r == AddColumn(t2, Cluster, ClusterColumn(|t.rows|, Estres in t.columns && Demandas in t.columns && |t.rows| >= 3, draw))
    ensures Estres in t.columns ==>
      forall i :: 0 <= i < |t.rows| ==> IsCode(CellOf(r.rows[i], EstresEncoded), |t.rows|)
    ensures Demandas in t.columns ==>
      forall i :: 0 <= i < |t.rows| ==> IsCode(CellOf(r.rows[i], DemandasEncoded), |t.rows|)
  {
    var b: set<string> := if Demandas in t.columns then {DemandasEncoded} else {};
    assert Demandas in t1.columns <==> Demandas in t.columns;
    PatternNamesDistinct();
    KeptColumn(t1, t2, b, EstresEncoded);
    KeptColumn(t2, r, {Cluster}, EstresEncoded);
    KeptColumn(t2, r, {Cluster}, DemandasEncoded);
  }

  /** The three columns `patrones_estres` adds have different names. */
  lemma PatternNamesDistinct()
    ensures EstresEncoded != DemandasEncoded && EstresEncoded != Cluster && DemandasEncoded != Cluster
  {
  }

  // ---------------------------------------------------------------------------
  // Voluntary turnover: `modelo_rotacion`
  // ---------------------------------------------------------------------------

  predicate IsUnitReal(v: Cell) {
    v.Some? && v.value.Num? && 0.0 <= v.value.x < 1.0
  }

  /** The uniform [0, 1) column `probabilidad_rotacion`, one draw per row. */
  function UnitColumn(n: nat, column: string, draw: Oracle): (cells: seq<Cell>)
    ensures |cells| == n && forall i :: 0 <= i < n ==> IsUnitReal(cells[i])
  {
    var cells := seq(n, i requires 0 <= i < n => Some(Num(Uniform(0.0, 1.0, draw(column, i)))));
    assert forall i :: 0 <= i < n ==> cells[i] == Some(Num(Uniform(0.0, 1.0, draw(column, i))));
    cells
  }

  /**
   * `modelo_rotacion`: `riesgo_rotacion` is 1 exactly when the satisfaction is
   * a number below 5 (a value of exactly 5, or a missing one, gives 0), a coin
   * otherwise; `probabilidad_rotacion` is an unrelated uniform draw. Comparing a
   * column that holds text with 5 raises a TypeError.
   */
  function ModeloRotacion(t: Table, draw: Oracle): (r: Result<Table, Error>)
    ensures r.Failure? <==> Satisfaccion in t.columns && HasText(t, Satisfaccion)
    ensures r.Success? ==>
      && Extends(t, r.value, {RiesgoRotacion, ProbabilidadRotacion})
      && (WellFormed(t) ==> WellFormed(r.value))
      && forall i :: 0 <= i < |t.rows| ==>
        IsFlag(CellOf(r.value.rows[i], RiesgoRotacion)) && IsUnitReal(CellOf(r.value.rows[i], ProbabilidadRotacion))
    ensures r.Success? && Satisfaccion in t.columns ==>
      forall i :: 0 <= i < |t.rows| ==>
        (CellOf(r.value.rows[i], RiesgoRotacion) == Flag(true) <==> BelowFive(CellOf(t.rows[i], Satisfaccion)))
  {
    var n := |t.rows|;
    if Satisfaccion in t.columns && HasText(t, Satisfaccion) then Failure(TextComparedWithNumber(Satisfaccion))
    else
      var flags := if Satisfaccion in t.columns
        then seq(n, i requires 0 <= i < n => Flag(BelowFive(CellOf(t.rows[i], Satisfaccion))))
        else CoinFlags(n, RiesgoRotacion, draw);
      var t1 := AddColumn(t, RiesgoRotacion, flags);
      var r := AddColumn(t1, ProbabilidadRotacion, UnitColumn(n, ProbabilidadRotacion, draw));
      ExtendsTrans(t, t1, r, {RiesgoRotacion}, {ProbabilidadRotacion});
      assert {RiesgoRotacion} + {ProbabilidadRotacion} == {RiesgoRotacion, ProbabilidadRotacion};
      Success(r)
  }

  /** A satisfaction of exactly 5 is not a turnover risk; 4 is. */
  lemma RotationThresholdIsStrict(draw: Oracle)
    ensures
      var t := Table([Satisfaccion], [map[Satisfaccion := Some(Num(5.0))], map[Satisfaccion := Some(Num(4.0))]]);
      var r := ModeloRotacion(t, draw);
      r.Success? && CellOf(r.value.rows[0], RiesgoRotacion) == Flag(false)
      && CellOf(r.value.rows[1], RiesgoRotacion) == Flag(true)
  {
    var t := Table([Satisfaccion], [map[Satisfaccion := Some(Num(5.0))], map[Satisfaccion := Some(Num(4.0))]]);
    assert !HasText(t, Satisfaccion);
    var r := ModeloRotacion(t, draw);
    assert IsFlag(CellOf(r.value.rows[0], RiesgoRotacion));
  }

  // ---------------------------------------------------------------------------
  // Resilience profiles: a random score binned by `pd.cut(bins=3)`
  // ---------------------------------------------------------------------------

  const Bandas: seq<string> := ["Baja", "Media", "Alta"]

  function Abs(x: int): nat {
    if x < 0 then -x else x
  }

  /** `np.linspace(a, b, 4)`. */
  function Linspace4(a: real, b: real): seq<real> {
    [a, a + (b - a) / 3.0, a + 2.0 * (b - a) / 3.0, b]
  }

  /**
   * The bin edges `pd.cut(x, bins=3)` computes from the data's minimum `lo` and
   * maximum `hi`: equal widths, the range widened by 0.1% at both ends when all
   * values are equal, otherwise the first edge lowered by 0.1% of the range.
   */
  function CutEdges(lo: int, hi: int): (edges: seq<real>)
    requires lo <= hi
    ensures |edges| == 4
  {
    if lo == hi then
      var mn := if lo != 0 then lo as real - 0.001 * Abs(lo) as real else -0.001;
      var mx := if hi != 0 then hi as real + 0.001 * Abs(hi) as real else 0.001;
      Linspace4(mn, mx)
    else
      var e := Linspace4(lo as real, hi as real);
      [e[0] - (hi - lo) as real * 0.001] + e[1..]
  }

  /** The right-closed bin `x` falls in, or `None` (NaN) outside the edges. */
  function PandasCut(x: real, edges: seq<real>): Option<nat>
    requires |edges| == 4
  {
    if x <= edges[0] || x > edges[3] then None
    else if x <= edges[1] then Some(0)
    else if x <= edges[2] then Some(1)
    else Some(2)
  }

  /** The band of an integer score, in integer arithmetic: the lower third, middle third or upper third of lo..hi. */
  function BandIndex(x: int, lo: int, hi: int): (k: nat)
    requires lo <= x <= hi
    ensures k < 3
  {
    if lo == hi then 1
    else if 3 * (x - lo) <= hi - lo then 0
    else if 3 * (x - lo) <= 2 * (hi - lo) then 1
    else 2
  }

  /** pandas' real-valued edges and the integer thirds put every score in the same band. */
  lemma CutAgrees(x: int, lo: int, hi: int)
    requires lo <= x <= hi
    ensures PandasCut(x as real, CutEdges(lo, hi)) == Some(BandIndex(x, lo, hi))
  {
  }

  /** Bands never decrease as the score grows; a score on a third's edge falls in the lower band. */
  lemma BandMonotone(x: int, y: int, lo: int, hi: int)
    requires lo <= x <= y <= hi
    ensures BandIndex(x, lo, hi) <= BandIndex(y, lo, hi)
  {
  }

  function SeqMin(s: seq<int>): (m: int)
    requires |s| > 0
    ensures m in s && forall i :: 0 <= i < |s| ==> m <= s[i]
  {
    if |s| == 1 then s[0] else var m := SeqMin(s[1..]); if s[0] <= m then s[0] else m
  }

  function SeqMax(s: seq<int>): (m: int)
    requires |s| > 0
    ensures m in s && forall i :: 0 <= i < |s| ==> s[i] <= m
  {
    if |s| == 1 then s[0] else var m := SeqMax(s[1..]); if s[0] >= m then s[0] else m
  }

  /** The rank of a band label, -1 for anything else. */
  function BandRank(v: Cell): int {
    if v == Some(Text("Baja")) then 0
    else if v == Some(Text("Media")) then 1
    else if v == Some(Text("Alta")) then 2
    else -1
  }

  /** The label `pd.cut` gives score `x` when the data range is lo..hi; NaN outside the edges. */
  function BandCell(x: int, lo: int, hi: int): (v: Cell)
    requires lo <= x <= hi
    ensures BandRank(v) == BandIndex(x, lo, hi)
  {
    CutAgrees(x, lo, hi);
    match PandasCut(x as real, CutEdges(lo, hi))
    case Some(k) => Some(Text(Bandas[k]))
    case None => None
  }

  /**
   * `pd.cut(scores, bins=3, labels=['Baja', 'Media', 'Alta'])`: every score gets
   * a label (none is NaN), labels never decrease with the score, the lowest score
   * is "Baja" and the highest "Alta" when they differ, and all are "Media" when
   * every score is the same.
   */
  function ResilienceLabels(scores: seq<int>): (labels: seq<Cell>)
    requires |scores| > 0
    ensures |labels| == |scores|
    ensures forall i :: 0 <= i < |scores| ==> BandRank(labels[i]) == BandIndex(scores[i], SeqMin(scores), SeqMax(scores))
    ensures forall i :: 0 <= i < |labels| ==> 0 <= BandRank(labels[i])
    ensures forall i, j :: 0 <= i < |scores| && 0 <= j < |scores| && scores[i] <= scores[j] ==>
      BandRank(labels[i]) <= BandRank(labels[j])
    ensures SeqMin(scores) < SeqMax(scores) ==> forall i :: 0 <= i < |scores| ==>
      (scores[i] == SeqMin(scores) ==> BandRank(labels[i]) == 0)
      && (scores[i] == SeqMax(scores) ==> BandRank(labels[i]) == 2)
    ensures SeqMin(scores) == SeqMax(scores) ==> forall i :: 0 <= i < |scores| ==> BandRank(labels[i]) == 1
  {
    var lo := SeqMin(scores);
    var hi := SeqMax(scores);
    var labels := seq(|scores|, i requires 0 <= i < |scores| => BandCell(scores[i], lo, hi));
    assert forall i :: 0 <= i < |scores| ==> BandRank(labels[i]) == BandIndex(scores[i], lo, hi) by {
      forall i | 0 <= i < |scores|
        ensures BandRank(labels[i]) == BandIndex(scores[i], lo, hi)
      {
        assert labels[i] == BandCell(scores[i], lo, hi);
      }
    }
    LabelsMonotone(scores, labels);
    LabelsAtExtremes(scores, labels);
    labels
  }

  /** Labels ranked by the bands of their scores never decrease with the score. */
  lemma LabelsMonotone(scores: seq<int>, labels: seq<Cell>)
    requires |scores| > 0 && |labels| == |scores|
    requires forall i :: 0 <= i < |scores| ==> BandRank(labels[i]) == BandIndex(scores[i], SeqMin(scores), SeqMax(scores))
    ensures forall i, j :: 0 <= i < |scores| && 0 <= j < |scores| && scores[i] <= scores[j] ==>
      BandRank(labels[i]) <= BandRank(labels[j])
  {
    forall i, j | 0 <= i < |scores| && 0 <= j < |scores| && scores[i] <= scores[j]
      ensures BandRank(labels[i]) <= BandRank(labels[j])
    {
      BandMonotone(scores[i], scores[j], SeqMin(scores), SeqMax(scores));
    }
  }

  /** Labels ranked by the bands of their scores: the extremes take the outer bands, a constant score the middle one. */
  lemma LabelsAtExtremes(scores: seq<int>, labels: seq<Cell>)
    requires |scores| > 0 && |labels| == |scores|
    requires forall i :: 0 <= i < |scores| ==> BandRank(labels[i]) == BandIndex(scores[i], SeqMin(scores), SeqMax(scores))
    ensures forall i :: 0 <= i < |labels| ==> 0 <= BandRank(labels[i])
    ensures SeqMin(scores) < SeqMax(scores) ==> forall i :: 0 <= i < |scores| ==>
      (scores[i] == SeqMin(scores) ==> BandRank(labels[i]) == 0)
      && (scores[i] == SeqMax(scores) ==> BandRank(labels[i]) == 2)
    ensures SeqMin(scores) == SeqMax(scores) ==> forall i :: 0 <= i < |scores| ==> BandRank(labels[i]) == 1
  {
  }

  /** `np.random.randint(1, 10, n)`. */
  function ResilienceScores(n: nat, draw: Oracle): (scores: seq<int>)
    ensures |scores| == n && forall i :: 0 <= i < n ==> 1 <= scores[i] <= 9
  {
    var scores := seq(n, i requires 0 <= i < n => RandInt(1, 10, draw(ScoreResiliencia, i)));
    assert forall i :: 0 <= i < n ==> scores[i] == RandInt(1, 10, draw(ScoreResiliencia, i));
    scores
  }

  /**
   * `perfiles_resiliencia`: a score in 1..9 per row and its band. `pd.cut`
   * raises on an empty table.
   */
  function PerfilesResiliencia(t: Table, draw: Oracle): (r: Result<Table, Error>)
    ensures r.Failure? <==> |t.rows| == 0
    ensures r.Success? ==>
      && Extends(t, r.value, {ScoreResiliencia, PerfilResiliencia})
      && (WellFormed(t) ==> WellFormed(r.value))
      && var scores := ResilienceScores(|t.rows|, draw);
         forall i :: 0 <= i < |t.rows| ==>
           && CellOf(r.value.rows[i], ScoreResiliencia) == Some(Num(scores[i] as real))
           && 1 <= scores[i] <= 9
           && CellOf(r.value.rows[i], PerfilResiliencia) == ResilienceLabels(scores)[i]
           && 0 <= BandRank(CellOf(r.value.rows[i], PerfilResiliencia))
  {
    if |t.rows| == 0 then Failure(CutEmptyArray)
    else
      var scores := ResilienceScores(|t.rows|, draw);
      Success(ResilienceTable(t, scores, ResilienceLabels(scores)))
  }

  /** The table `perfiles_resiliencia` returns for the given scores and their labels. */
  function ResilienceTable(t: Table, scores: seq<int>, labels: seq<Cell>): (r: Table)
    requires |scores| == |t.rows| && |labels| == |t.rows|
    requires forall i :: 0 <= i < |scores| ==> 1 <= scores[i] <= 9
    requires forall i :: 0 <= i < |labels| ==> 0 <= BandRank(labels[i])
    ensures Extends(t, r, {ScoreResiliencia, PerfilResiliencia})
    ensures WellFormed(t) ==> WellFormed(r)
    ensures forall i :: 0 <= i < |t.rows| ==>
      && CellOf(r.rows[i], ScoreResiliencia) == Some(Num(scores[i] as real))
      && 1 <= scores[i] <= 9
      && CellOf(r.rows[i], PerfilResiliencia) == labels[i]
      && 0 <= BandRank(CellOf(r.rows[i], PerfilResiliencia))
  {
    var t1 := AddColumn(t, ScoreResiliencia, ScoreCells(scores));
    var r := AddColumn(t1, PerfilResiliencia, labels);
    ResilienceColumns(t, t1, r, scores, labels);
    r
  }

  /** The scores as numeric cells. */
  function ScoreCells(scores: seq<int>): (cells: seq<Cell>)
    ensures |cells| == |scores|
    ensures forall i :: 0 <= i < |scores| ==> cells[i] == Some(Num(scores[i] as real))
  {
    seq(|scores|, i requires 0 <= i < |scores| => Some(Num(scores[i] as real)))
  }

  /** The score and band columns hold the scores and their labels, and nothing else changes. */
  lemma ResilienceColumns(t: Table, t1: Table, r: Table, scores: seq<int>, labels: seq<Cell>)
    requires |scores| == |t.rows| && |labels| == |t.rows|
    requires Extends(t, t1, {ScoreResiliencia}) && Extends(t1, r, {PerfilResiliencia})
    requires forall i :: 0 <= i < |t1.rows| ==> CellOf(t1.rows[i], ScoreResiliencia) == Some(Num(scores[i] as real))
    requires forall i :: 0 <= i < |r.rows| ==> CellOf(r.rows[i], PerfilResiliencia) == labels[i]
    requires forall i :: 0 <= i < |scores| ==> 1 <= scores[i] <= 9
    requires forall i :: 0 <= i < |labels| ==> 0 <= BandRank(labels[i])
    ensures Extends(t, r, {ScoreResiliencia, PerfilResiliencia})
    ensures forall i :: 0 <= i < |t.rows| ==>
      && CellOf(r.rows[i], ScoreResiliencia) == Some(Num(scores[i] as real))
      && 1 <= scores[i] <= 9
      && CellOf(r.rows[i], PerfilResiliencia) == labels[i]
      && 0 <= BandRank(CellOf(r.rows[i], PerfilResiliencia))
  {
    ExtendsTrans(t, t1, r, {ScoreResiliencia}, {PerfilResiliencia});
    assert {ScoreResiliencia} + {PerfilResiliencia} == {ScoreResiliencia, PerfilResiliencia};
    KeptColumn(t1, r, {PerfilResiliencia}, ScoreResiliencia);
  }

  // ---------------------------------------------------------------------------
  // Intervention effectiveness: `efectividad_intervenciones`
  // ---------------------------------------------------------------------------

  const Catalogo: seq<string> := ["Capacitación", "Rediseño puesto", "Apoyo psicológico", "Flexibilidad horaria"]

  predicate InCatalog(v: Cell) {
    v.Some? && v.value.Text? && v.value.s in Catalogo
  }

  predicate IsImprovement(v: Cell) {
    v.Some? && v.value.Num? && 0.1 <= v.value.x < 0.8
  }

  /**
   * `efectividad_intervenciones`: an expected improvement in [0.1, 0.8) and one
   * of the four catalogue interventions per row.
   */
  function EfectividadIntervenciones(t: Table, draw: Oracle): (r: Table)
    ensures Extends(t, r, {MejoraEsperada, IntervencionRecomendada})
    ensures WellFormed(t) ==> WellFormed(r)
    ensures forall i :: 0 <= i < |t.rows| ==>
      IsImprovement(CellOf(r.rows[i], MejoraEsperada)) && InCatalog(CellOf(r.rows[i], IntervencionRecomendada))
  {
    var n := |t.rows|;
    var gains := seq(n, i requires 0 <= i < n => Some(Num(Uniform(0.1, 0.8, draw(MejoraEsperada, i)))));
    var picks := seq(n, i requires 0 <= i < n => Some(Text(Choice(Catalogo, draw(IntervencionRecomendada, i)))));
    EffectivenessDraws(n, draw, gains, picks);
    var t1 := AddColumn(t, MejoraEsperada, gains);
    var r := AddColumn(t1, IntervencionRecomendada, picks);
    EffectivenessColumns(t, t1, r, gains, picks);
    r
  }

  /** Every simulated improvement lies in [0.1, 0.8) and every pick is from the catalogue. */
  lemma EffectivenessDraws(n: nat, draw: Oracle, gains: seq<Cell>, picks: seq<Cell>)
    requires gains == seq(n, i requires 0 <= i < n => Some(Num(Uniform(0.1, 0.8, draw(MejoraEsperada, i)))))
    requires picks == seq(n, i requires 0 <= i < n => Some(Text(Choice(Catalogo, draw(IntervencionRecomendada, i)))))
    ensures forall i :: 0 <= i < n ==> IsImprovement(gains[i]) && InCatalog(picks[i])
  {
    forall i | 0 <= i < n
      ensures IsImprovement(gains[i]) && InCatalog(picks[i])
    {
      var u := Uniform(0.1, 0.8, draw(MejoraEsperada, i));
      var c := Choice(Catalogo, draw(IntervencionRecomendada, i));
      assert gains[i] == Some(Num(u));
      assert picks[i] == Some(Text(c));
      assert c in Catalogo;
    }
  }

  /** The two added columns hold the draws, and nothing else changes. */
  lemma EffectivenessColumns(t: Table, t1: Table, r: Table, gains: seq<Cell>, picks: seq<Cell>)
    requires |gains| == |t.rows| && |picks| == |t.rows|
    requires Extends(t, t1, {MejoraEsperada}) && Extends(t1, r, {IntervencionRecomendada})
    requires forall i :: 0 <= i < |t1.rows| ==> CellOf(t1.rows[i], MejoraEsperada) == gains[i]
    requires forall i :: 0 <= i < |r.rows| ==> CellOf(r.rows[i], IntervencionRecomendada) == picks[i]
    requires forall i :: 0 <= i < |t.rows| ==> IsImprovement(gains[i]) && InCatalog(picks[i])
    ensures Extends(t, r, {MejoraEsperada, IntervencionRecomendada})
    ensures forall i :: 0 <= i < |t.rows| ==>
      IsImprovement(CellOf(r.rows[i], MejoraEsperada)) && InCatalog(CellOf(r.rows[i], IntervencionRecomendada))
  {
    ExtendsTrans(t, t1, r, {MejoraEsperada}, {IntervencionRecomendada});
    assert {MejoraEsperada} + {IntervencionRecomendada} == {MejoraEsperada, IntervencionRecomendada};
    KeptColumn(t1, r, {IntervencionRecomendada}, MejoraEsperada);
  }

  // ---------------------------------------------------------------------------
  // The seven analyses as one enumeration
  // ---------------------------------------------------------------------------

  datatype Analysis = Alertas | Recomendaciones | PatronesDeEstres | Rotacion | Incidentes | Resiliencia | Efectividad

  /** The columns analysis `a` assigns on `t`. */
  function Adds(a: Analysis, t: Table): set<string> {
    match a
    case Alertas => {RiesgoAlto}
    case Recomendaciones => {Recomendacion}
    case PatronesDeEstres => PatternColumns(t)
    case Rotacion => {RiesgoRotacion, ProbabilidadRotacion}
    case Incidentes => {RiesgoIncidentes}
    case Resiliencia => {ScoreResiliencia, PerfilResiliencia}
    case Efectividad => {MejoraEsperada, IntervencionRecomendada}
  }

  /**
   * Runs one analysis on `t`. An analysis that succeeds assigns its own columns
   * and leaves every other cell alone; the one exception is the recommender on
   * an empty table, which hands the table back untouched.
   */
  function Run(a: Analysis, t: Table, draw: Oracle): (r: Result<Table, Error>)
    ensures r.Success? ==> Extends(t, r.value, Adds(a, t)) || (a == Recomendaciones && |t.rows| == 0 && r.value == t)
    ensures r.Success? && WellFormed(t) ==> WellFormed(r.value)
  {
    match a
    case Alertas => AlertaTemprana(t, draw)
    case Recomendaciones => Recomendador(t)
    case PatronesDeEstres => Success(PatronesEstres(t, draw))
    case Rotacion => ModeloRotacion(t, draw)
    case Incidentes => PredictorIncidentes(t, draw)
    case Resiliencia => PerfilesResiliencia(t, draw)
    case Efectividad => Success(EfectividadIntervenciones(t, draw))
  }

  /** Whether an analysis raises depends on the table alone, never on the draws. */
  lemma RunFailureIgnoresDraws(a: Analysis, t: Table, d1: Oracle, d2: Oracle)
    ensures Run(a, t, d1).Failure? <==> Run(a, t, d2).Failure?
  {
  }
}
