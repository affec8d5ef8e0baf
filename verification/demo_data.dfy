/**
 * The synthetic employee tables of app.py: `crear_datos_demo` and the two
 * stand-ins for document content, `crear_datos_desde_pdf` and
 * `crear_datos_desde_word`, which ignore the document and generate a demo
 * table of random size.
 */
module DemoData {
  import opened Wrappers
  import opened Text
  import opened Tables
  import opened Draws
  import opened Analyzer

  const IdColaborador: string := "id_colaborador"
  const Nombre: string := "nombre"
  const AreaTrabajo: string := "area_trabajo"
  const Cargo: string := "cargo"
  const Ausentismo: string := "ausentismo_dias"
  const Antiguedad: string := "antiguedad_meses"
  const Edad: string := "edad"
  const Genero: string := "genero"
  const TipoContrato: string := "tipo_contrato"

  /** The twelve columns of a demo table, in the order the dictionary lists them. */
  const DemoColumns: seq<string> := [
    IdColaborador, Nombre, AreaTrabajo, Cargo, Estres, Demandas,
    Satisfaccion, Ausentismo, Antiguedad, Edad, Genero, TipoContrato
  ]

  const Areas: seq<string> := ["Académica", "Administrativa", "Operativa", "Comercial", "Investigación"]
  const Cargos: seq<string> := ["Profesor", "Administrativo", "Coordinador", "Investigador", "Asistente"]
  const Niveles: seq<string> := ["Bajo", "Medio", "Alto", "Muy Alto"]
  const Generos: seq<string> := ["Femenino", "Masculino", "Otro"]
  const Contratos: seq<string> := ["Indefinido", "Temporal", "Prestación servicios"]

  /** The prefix of every generated name. */
  const NamePrefix: string := "Colaborador_"

  /** `f'Colaborador_{k}'`. */
  function DemoName(k: nat): string {
    NamePrefix + NatToString(k)
  }

  /** The cell holds one of `options` as text. */
  predicate TextIn(v: Cell, options: seq<string>) {
    v.Some? && v.value.Text? && v.value.s in options
  }

  /** The cell holds a whole number in lo..hi. */
  predicate WholeIn(v: Cell, lo: int, hi: int) {
    v.Some? && v.value.Num? && v.value.x.Floor as real == v.value.x && lo as real <= v.value.x <= hi as real
  }

  /** The cell holds a non-negative whole number (a Poisson count). */
  predicate Count(v: Cell) {
    v.Some? && v.value.Num? && v.value.x.Floor as real == v.value.x && 0.0 <= v.value.x
  }

  /** Row `i` (0-based) of a demo table drawn from `draw`. */
  function DemoRow(i: nat, draw: Oracle): Row {
    map[
      IdColaborador := Some(Num((i + 1) as real)),
      Nombre := Some(Text(DemoName(i + 1))),
      AreaTrabajo := Some(Text(Choice(Areas, draw(AreaTrabajo, i)))),
      Cargo := Some(Text(Choice(Cargos, draw(Cargo, i)))),
      Estres := Some(Text(Choice(Niveles, draw(Estres, i)))),
      Demandas := Some(Text(Choice(Niveles, draw(Demandas, i)))),
      Satisfaccion := Some(Num(RandInt(1, 11, draw(Satisfaccion, i)) as real)),
      Ausentismo := Some(Num(draw(Ausentismo, i) as real)),
      Antiguedad := Some(Num(RandInt(1, 120, draw(Antiguedad, i)) as real)),
      Edad := Some(Num(RandInt(25, 60, draw(Edad, i)) as real)),
      Genero := Some(Text(Choice(Generos, draw(Genero, i)))),
      TipoContrato := Some(Text(Choice(Contratos, draw(TipoContrato, i))))
    ]
  }

  /** What every demo row holds: its 1-based id and name, and each field within its vocabulary or range. */
  predicate IsDemoRow(row: Row, k: nat) {
    && CellOf(row, IdColaborador) == Some(Num(k as real))
    && CellOf(row, Nombre) == Some(Text(DemoName(k)))
    && TextIn(CellOf(row, AreaTrabajo), Areas)
    && TextIn(CellOf(row, Cargo), Cargos)
    && TextIn(CellOf(row, Estres), Niveles)
    && TextIn(CellOf(row, Demandas), Niveles)
    && WholeIn(CellOf(row, Satisfaccion), 1, 10)
    && Count(CellOf(row, Ausentismo))
    && WholeIn(CellOf(row, Antiguedad), 1, 119)
    && WholeIn(CellOf(row, Edad), 25, 59)
    && TextIn(CellOf(row, Genero), Generos)
    && TextIn(CellOf(row, TipoContrato), Contratos)
  }

  /** A demo row has exactly the twelve demo columns. */
  lemma DemoRowColumns(i: nat, draw: Oracle)
    ensures forall c :: c in DemoRow(i, draw) <==> c in DemoColumns
  {
  }

  /** A demo row's id and name. */
  lemma DemoRowIdentity(i: nat, draw: Oracle)
    ensures CellOf(DemoRow(i, draw), IdColaborador) == Some(Num((i + 1) as real))
    ensures CellOf(DemoRow(i, draw), Nombre) == Some(Text(DemoName(i + 1)))
  {
  }

  /** A demo row's categorical fields come from their lists. */
  lemma DemoRowCategories(i: nat, draw: Oracle)
    ensures TextIn(CellOf(DemoRow(i, draw), AreaTrabajo), Areas)
    ensures TextIn(CellOf(DemoRow(i, draw), Cargo), Cargos)
    ensures TextIn(CellOf(DemoRow(i, draw), Estres), Niveles)
    ensures TextIn(CellOf(DemoRow(i, draw), Demandas), Niveles)
    ensures TextIn(CellOf(DemoRow(i, draw), Genero), Generos)
    ensures TextIn(CellOf(DemoRow(i, draw), TipoContrato), Contratos)
  {
  }

  /** A demo row's numeric fields are whole numbers in their ranges. */
  lemma DemoRowNumbers(i: nat, draw: Oracle)
    ensures WholeIn(CellOf(DemoRow(i, draw), Satisfaccion), 1, 10)
    ensures Count(CellOf(DemoRow(i, draw), Ausentismo))
    ensures WholeIn(CellOf(DemoRow(i, draw), Antiguedad), 1, 119)
    ensures WholeIn(CellOf(DemoRow(i, draw), Edad), 25, 59)
  {
    var s := RandInt(1, 11, draw(Satisfaccion, i));
    var a := RandInt(1, 120, draw(Antiguedad, i));
    var e := RandInt(25, 60, draw(Edad, i));
    assert (s as real).Floor == s && (a as real).Floor == a && (e as real).Floor == e;
    assert (draw(Ausentismo, i) as real).Floor == draw(Ausentismo, i);
  }

  lemma DemoRowIsDemoRow(i: nat, draw: Oracle)
    ensures IsDemoRow(DemoRow(i, draw), i + 1)
  {
    DemoRowIdentity(i, draw);
    DemoRowCategories(i, draw);
    DemoRowNumbers(i, draw);
  }

  lemma DemoColumnsDistinct()
    ensures Distinct(DemoColumns)
  {
  }

  /**
   * `crear_datos_demo(n)`: n rows over the twelve demo columns. It reseeds numpy
   * with 42 on every call, so the draws are a fixed stream that depends on `n`
   * alone: `seeded(n)`.
   */
  function CrearDatosDemo(n: nat, seeded: nat -> Oracle): (t: Table)
    ensures t.columns == DemoColumns && |t.rows| == n
    ensures WellFormed(t)
  {
    var rows := seq(n, i requires 0 <= i < n => DemoRow(i, seeded(n)));
    assert forall i :: 0 <= i < n ==> rows[i] == DemoRow(i, seeded(n));
    forall i | 0 <= i < n
      ensures forall c :: c in rows[i] <==> c in DemoColumns
    {
      DemoRowColumns(i, seeded(n));
    }
    DemoColumnsDistinct();
    Table(DemoColumns, rows)
  }

  /**
   * Row i of a demo table (0-based) has id i + 1 and name "Colaborador_<i + 1>",
   * satisfaction in 1..10, tenure in 1..119 months, age in 25..59, and every
   * categorical field within its list.
   */
  lemma DemoRowsInRange(n: nat, seeded: nat -> Oracle)
    ensures forall i :: 0 <= i < n ==> IsDemoRow(CrearDatosDemo(n, seeded).rows[i], i + 1)
  {
    var t := CrearDatosDemo(n, seeded);
    forall i | 0 <= i < n
      ensures IsDemoRow(t.rows[i], i + 1)
    {
      assert t.rows[i] == DemoRow(i, seeded(n));
      DemoRowIsDemoRow(i, seeded(n));
    }
  }

  /** Two different ids give two different names. */
  lemma DemoNameInjective(a: nat, b: nat)
    requires a != b
    ensures DemoName(a) != DemoName(b)
  {
    if DemoName(a) == DemoName(b) {
      assert DemoName(a)[|NamePrefix|..] == NatToString(a);
      assert DemoName(b)[|NamePrefix|..] == NatToString(b);
      NatToStringInjective(a, b);
    }
  }

  /** Two different rows of a demo table never share a name. */
  lemma DemoNamesDistinct(n: nat, seeded: nat -> Oracle, i: nat, j: nat)
    requires i < n && j < n && i != j
    ensures CellOf(CrearDatosDemo(n, seeded).rows[i], Nombre) != CellOf(CrearDatosDemo(n, seeded).rows[j], Nombre)
  {
    DemoNameCell(n, seeded, i);
    DemoNameCell(n, seeded, j);
    DemoNameInjective(i + 1, j + 1);
  }

  /** The name cell of row i of a demo table is `Colaborador_{i + 1}`. */
  lemma DemoNameCell(n: nat, seeded: nat -> Oracle, i: nat)
    requires i < n
    ensures CellOf(CrearDatosDemo(n, seeded).rows[i], Nombre) == Some(Text(DemoName(i + 1)))
  {
    DemoTableRow(n, seeded, i);
    DemoRowIdentity(i, seeded(n));
  }

  /** Row i of a demo table is the i-th row the fixed stream generates. */
  lemma DemoTableRow(n: nat, seeded: nat -> Oracle, i: nat)
    requires i < n
    ensures CrearDatosDemo(n, seeded).rows[i] == DemoRow(i, seeded(n))
  {
  }

  /** `crear_datos_desde_pdf`: a demo table of `np.random.randint(30, 100)` rows, 30 to 99. */
  function CrearDatosDesdePdf(sizeDraw: nat, seeded: nat -> Oracle): (t: Table)
    ensures 30 <= |t.rows| <= 99
    ensures t == CrearDatosDemo(|t.rows|, seeded)
  {
    CrearDatosDemo(RandInt(30, 100, sizeDraw), seeded)
  }

  /** `crear_datos_desde_word`: a demo table of `np.random.randint(20, 80)` rows, 20 to 79. */
  function CrearDatosDesdeWord(sizeDraw: nat, seeded: nat -> Oracle): (t: Table)
    ensures 20 <= |t.rows| <= 79
    ensures t == CrearDatosDemo(|t.rows|, seeded)
  {
    CrearDatosDemo(RandInt(20, 80, sizeDraw), seeded)
  }

  /** Both document stand-ins reach every size in their range: the bounds are exact. */
  lemma DocumentSizesCovered(k: nat, seeded: nat -> Oracle)
    ensures 30 <= k <= 99 ==> |CrearDatosDesdePdf(k - 30, seeded).rows| == k
    ensures 20 <= k <= 79 ==> |CrearDatosDesdeWord(k - 20, seeded).rows| == k
  {
    if 30 <= k <= 99 {
      RandIntCovers(30, 100, k);
    }
    if 20 <= k <= 79 {
      RandIntCovers(20, 80, k);
    }
  }

  /**
   * On the demo's four stress levels the substring rule of the alerts and the
   * exact-membership rule of the recommender agree: a demo row is flagged
   * exactly when the recommender prescribes stress training for it.
   */
  lemma DemoAlertsMatchTraining(n: nat, seeded: nat -> Oracle, draw: Oracle)
    ensures AlertaTemprana(CrearDatosDemo(n, seeded), draw).Success?
    ensures Recomendador(CrearDatosDemo(n, seeded)).Success?
    ensures var t := CrearDatosDemo(n, seeded);
      forall i :: 0 <= i < n ==>
        (CellOf(AlertaTemprana(t, draw).value.rows[i], RiesgoAlto) == Flag(true) <==> StressRule(t.columns, t.rows[i]))
  {
    var t := CrearDatosDemo(n, seeded);
    DemoRowsInRange(n, seeded);
    if n > 0 {
      assert IsText(CellOf(t.rows[0], Estres));
    }
    StressRulesCompared();
    forall i | 0 <= i < n
      ensures !IsText(CellOf(t.rows[i], Satisfaccion))
    {
      assert IsDemoRow(t.rows[i], i + 1);
    }
  }
}
