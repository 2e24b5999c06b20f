/**
 * The content store: the constant table of chapters and their formulas, the
 * lookup by id, and the flattening of every formula into a row that carries
 * its chapter's id and title (the list the formula sheet searches).
 */
module PhysicsData {
  import opened Wrappers
  import opened Strings

  datatype Formula = Formula(name: string, latex: string)

  /** A chapter as the study pages read it; its markdown summary and worked problems are not modelled. */
  datatype Chapter = Chapter(id: string, title: string, youtubeId: Option<string>, formulas: seq<Formula>)

  /** One row of the flattened list: the formula's own fields plus its chapter's id and title. */
  datatype FormulaRow = FormulaRow(name: string, latex: string, chapterId: string, chapterTitle: string)

  /** `physicsData`: chapters 15 to 34 of the course, in order. */
  const PhysicsTable: seq<Chapter> := [
    Ch15, Ch16, Ch17, Ch18, Ch19, Ch20, Ch21, Ch22, Ch23, Ch24,
    Ch25, Ch26, Ch27, Ch28, Ch29, Ch30, Ch31, Ch32, Ch33, Ch34
  ]

  const Ch15: Chapter := Chapter("15", "Ch 15. " + "Oscillations", Some("dQw4w9WgXcQ"), Ch15Formulas)
  const Ch15Formulas: seq<Formula> := [
    Formula("Displacement (SHM)", "x(t) = A \\cos(\\omega t + \\phi)"),
    Formula("Velocity (SHM)", "v(t) = -A\\omega \\sin(\\omega t + \\phi)"),
    Formula("Acceleration (SHM)", "a(t) = -A\\omega^2 \\cos(\\omega t + \\phi)"),
    Formula("Angular Frequency", "\\omega = \\sqrt{\\frac{k}{m}}"),
    Formula("Period (Spring)", "T = 2\\pi\\sqrt{\\frac{m}{k}}"),
    Formula("Period (Pendulum)", "T = 2\\pi\\sqrt{\\frac{L}{g}}"),
    Formula("Total Energy", "E = \\frac{1}{2}kA^2 = \\frac{1}{2}mv_{max}^2")  ]

  const Ch16: Chapter := Chapter("16", "Ch 16. " + "Waves I", None, Ch16Formulas)
  const Ch16Formulas: seq<Formula> := [
    Formula("Wave Speed", "v = f\\lambda = \\frac{\\lambda}{T}"),
    Formula("Wave Function", "y(x,t) = A \\sin(kx - \\omega t + \\phi)"),
    Formula("Wave Number", "k = \\frac{2\\pi}{\\lambda}"),
    Formula("Speed on String", "v = \\sqrt{\\frac{T}{\\mu}}"),
    Formula("Power Transmitted", "P = \\frac{1}{2}\\mu v \\omega^2 A^2")  ]

  const Ch17: Chapter := Chapter("17", "Ch 17. " + "Waves II", None, Ch17Formulas)
  const Ch17Formulas: seq<Formula> := [
    Formula("Sound Intensity", "I = \\frac{P}{4\\pi r^2}"),
    Formula("Sound Level (dB)", "\\beta = 10 \\log_{10}\\left(\\frac{I}{I_0}\\right)"),
    Formula("Doppler (Approaching)", "f' = f\\frac{v + v_D}{v - v_S}"),
    Formula("Beat Frequency", "f_{beat} = |f_1 - f_2|")  ]

  const Ch18: Chapter := Chapter("18", "Ch 18. " + "Temperature, Heat, and the First Law", None, Ch18Formulas)
  const Ch18Formulas: seq<Formula> := [
    Formula("Linear Expansion", "\\Delta L = L_0 \\alpha \\Delta T"),
    Formula("Heat Transfer", "Q = mc\\Delta T"),
    Formula("First Law", "\\Delta E_{int} = Q - W")  ]

  const Ch19: Chapter := Chapter("19", "Ch 19. " + "The Kinetic Theory of Gases", None, Ch19Formulas)
  const Ch19Formulas: seq<Formula> := [
    Formula("Ideal Gas Law", "PV = nRT"),
    Formula("Kinetic Energy", "K_{avg} = \\frac{3}{2}kT"),
    Formula("RMS Speed", "v_{rms} = \\sqrt{\\frac{3kT}{m}}")  ]

  const Ch20: Chapter := Chapter("20", "Ch 20. " + "Entropy and the Second Law", None, Ch20Formulas)
  const Ch20Formulas: seq<Formula> := [
    Formula("Entropy Change", "\\Delta S = \\int \\frac{dQ}{T}"),
    Formula("Carnot Efficiency", "e = 1 - \\frac{T_C}{T_H}")  ]

  const Ch21: Chapter := Chapter("21", "Ch 21. " + "Coulomb's Law", None, Ch21Formulas)
  const Ch21Formulas: seq<Formula> := [
    Formula("Coulomb's Law", "F = k\\frac{|q_1 q_2|}{r^2}"),
    Formula("Electric Field", "E = \\frac{F}{q} = k\\frac{Q}{r^2}")  ]

  const Ch22: Chapter := Chapter("22", "Ch 22. " + "Electric Fields", None, Ch22Formulas)
  const Ch22Formulas: seq<Formula> := [
    Formula("Gauss's Law", "\\Phi_E = \\oint \\vec{E} \\cdot d\\vec{A} = \\frac{Q_{enc}}{\\epsilon_0}"),
    Formula("Field (Infinite Sheet)", "E = \\frac{\\sigma}{2\\epsilon_0}")  ]

  const Ch23: Chapter := Chapter("23", "Ch 23. " + "Electric Potential", None, Ch23Formulas)
  const Ch23Formulas: seq<Formula> := [
    Formula("Electric Potential", "V = \\frac{U}{q} = k\\frac{Q}{r}"),
    Formula("Potential Difference", "\\Delta V = -\\int \\vec{E} \\cdot d\\vec{l}")  ]

  const Ch24: Chapter := Chapter("24", "Ch 24. " + "Capacitance", None, Ch24Formulas)
  const Ch24Formulas: seq<Formula> := [
    Formula("Capacitance", "C = \\frac{Q}{V}"),
    Formula("Parallel Plate", "C = \\epsilon_0 \\frac{A}{d}"),
    Formula("Energy Stored", "U = \\frac{1}{2}CV^2 = \\frac{1}{2}QV")  ]

  const Ch25: Chapter := Chapter("25", "Ch 25. " + "Current and Resistance", None, Ch25Formulas)
  const Ch25Formulas: seq<Formula> := [
    Formula("Current", "I = \\frac{dQ}{dt}"),
    Formula("Ohm's Law", "V = IR"),
    Formula("Resistance", "R = \\rho \\frac{L}{A}"),
    Formula("Power", "P = IV = I^2R = \\frac{V^2}{R}")  ]

  const Ch26: Chapter := Chapter("26", "Ch 26. " + "Circuits", None, Ch26Formulas)
  const Ch26Formulas: seq<Formula> := [
    Formula("Series Resistance", "R_{eq} = R_1 + R_2 + ..."),
    Formula("Parallel Resistance", "\\frac{1}{R_{eq}} = \\frac{1}{R_1} + \\frac{1}{R_2} + ..."),
    Formula("RC Time Constant", "\\tau = RC")  ]

  const Ch27: Chapter := Chapter("27", "Ch 27. " + "Magnetic Fields", None, Ch27Formulas)
  const Ch27Formulas: seq<Formula> := [
    Formula("Magnetic Force", "\\vec{F} = q\\vec{v} \\times \\vec{B}"),
    Formula("Force on Wire", "F = ILB\\sin\\theta"),
    Formula("Cyclotron Radius", "r = \\frac{mv}{qB}")  ]

  const Ch28: Chapter := Chapter("28", "Ch 28. " + "Magnetic Fields Due to Currents", None, Ch28Formulas)
  const Ch28Formulas: seq<Formula> := [
    Formula("Biot-Savart Law", "d\\vec{B} = \\frac{\\mu_0}{4\\pi}\\frac{Id\\vec{l} \\times \\hat{r}}{r^2}"),
    Formula("Field (Long Wire)", "B = \\frac{\\mu_0 I}{2\\pi r}"),
    Formula("Ampère's Law", "\\oint \\vec{B} \\cdot d\\vec{l} = \\mu_0 I_{enc}")  ]

  const Ch29: Chapter := Chapter("29", "Ch 29. " + "Induction and Inductance", None, Ch29Formulas)
  const Ch29Formulas: seq<Formula> := [
    Formula("Faraday's Law", "\\mathcal{E} = -\\frac{d\\Phi_B}{dt}"),
    Formula("Inductance", "L = \\frac{\\Phi_B}{I}"),
    Formula("Self-Induced EMF", "\\mathcal{E}_L = -L\\frac{dI}{dt}"),
    Formula("Energy Stored", "U = \\frac{1}{2}LI^2")  ]

  const Ch30: Chapter := Chapter("30", "Ch 30. " + "Electromagnetic Oscillations", None, Ch30Formulas)
  const Ch30Formulas: seq<Formula> := [
    Formula("LC Frequency", "\\omega = \\frac{1}{\\sqrt{LC}}"),
    Formula("Capacitive Reactance", "X_C = \\frac{1}{\\omega C}"),
    Formula("Inductive Reactance", "X_L = \\omega L")  ]

  const Ch31: Chapter := Chapter("31", "Ch 31. " + "Electromagnetic Waves", None, Ch31Formulas)
  const Ch31Formulas: seq<Formula> := [
    Formula("Wave Speed", "c = \\frac{1}{\\sqrt{\\mu_0\\epsilon_0}}"),
    Formula("Intensity", "I = \\frac{E_0^2}{2\\mu_0 c}"),
    Formula("Radiation Pressure", "p_r = \\frac{I}{c}")  ]

  const Ch32: Chapter := Chapter("32", "Ch 32. " + "Images", None, Ch32Formulas)
  const Ch32Formulas: seq<Formula> := [
    Formula("Mirror Equation", "\\frac{1}{f} = \\frac{1}{d_o} + \\frac{1}{d_i}"),
    Formula("Magnification", "m = -\\frac{d_i}{d_o} = \\frac{h_i}{h_o}"),
    Formula("Snell's Law", "n_1\\sin\\theta_1 = n_2\\sin\\theta_2")  ]

  const Ch33: Chapter := Chapter("33", "Ch 33. " + "Interference", None, Ch33Formulas)
  const Ch33Formulas: seq<Formula> := [
    Formula("Double-Slit (Bright)", "d\\sin\\theta = m\\lambda"),
    Formula("Double-Slit (Dark)", "d\\sin\\theta = (m + \\frac{1}{2})\\lambda"),
    Formula("Thin Film", "2nt = m\\lambda")  ]

  const Ch34: Chapter := Chapter("34", "Ch 34. " + "Diffraction and Polarization", None, Ch34Formulas)
  const Ch34Formulas: seq<Formula> := [
    Formula("Single-Slit (Dark)", "a\\sin\\theta = m\\lambda"),
    Formula("Grating", "d\\sin\\theta = m\\lambda"),
    Formula("Malus's Law", "I = I_0\\cos^2\\theta")  ]

  /** `table.find(ch => ch.id === id)`: the first chapter whose id is `id`. */
  function FindChapter(table: seq<Chapter>, id: string): (r: Option<Chapter>)
    ensures r.None? <==> forall k :: 0 <= k < |table| ==> table[k].id != id
    ensures r.Some? ==> exists k :: 0 <= k < |table| && table[k] == r.value && r.value.id == id &&
                          forall j :: 0 <= j < k ==> table[j].id != id
  {
    if table == [] then None
    else if table[0].id == id then Some(table[0])
    else
      var r := FindChapter(table[1..], id);
      assert r.Some? ==> exists k :: 0 <= k < |table| && table[k] == r.value && r.value.id == id &&
                          forall j :: 0 <= j < k ==> table[j].id != id by {
        if r.Some? {
          var k :| 0 <= k < |table[1..]| && table[1..][k] == r.value && r.value.id == id &&
                   forall j :: 0 <= j < k ==> table[1..][j].id != id;
          assert table[k + 1] == r.value;
          assert forall j :: 0 <= j < k + 1 ==> table[j].id != id by {
            forall j | 0 <= j < k + 1 ensures table[j].id != id {
              if j > 0 { assert table[j] == table[1..][j - 1]; }
            }
          }
        }
      }
      r
  }

  /** `getChapterById`. */
  function GetChapterById(id: string): Option<Chapter> {
    FindChapter(PhysicsTable, id)
  }

  function ToRow(ch: Chapter, f: Formula): FormulaRow {
    FormulaRow(f.name, f.latex, ch.id, ch.title)
  }

  /** `ch.formulas.map(f => ({ ...f, chapterId: ch.id, chapterTitle: ch.title }))`. */
  function ChapterRows(ch: Chapter): (rows: seq<FormulaRow>)
    ensures |rows| == |ch.formulas|
    ensures forall k :: 0 <= k < |rows| ==> rows[k] == ToRow(ch, ch.formulas[k])
  {
    seq(|ch.formulas|, k requires 0 <= k < |ch.formulas| => ToRow(ch, ch.formulas[k]))
  }

  /** `table.flatMap(ChapterRows)`. */
  function Flatten(table: seq<Chapter>): seq<FormulaRow> {
    if table == [] then [] else ChapterRows(table[0]) + Flatten(table[1..])
  }

  /** `getAllFormulas`. */
  function GetAllFormulas(): seq<FormulaRow> {
    Flatten(PhysicsTable)
  }

  /** The sum of the per-chapter formula counts. */
  function FormulaCount(table: seq<Chapter>): nat {
    if table == [] then 0 else |table[0].formulas| + FormulaCount(table[1..])
  }

  /** The number of formulas in the chapters before chapter `c`. */
  function Offset(table: seq<Chapter>, c: nat): nat
    requires c <= |table|
  {
    if c == 0 then 0 else |table[0].formulas| + Offset(table[1..], c - 1)
  }

  lemma {:induction false} FlattenLength(table: seq<Chapter>)
    ensures |Flatten(table)| == FormulaCount(table)
  {
    if table != [] {
      FlattenLength(table[1..]);
    }
  }

  /**
   * Chapter order and formula order are kept: formula `k` of chapter `c` sits
   * at position Offset(c) + k, as the row built from that formula and chapter.
   */
  lemma {:induction false} FlattenAt(table: seq<Chapter>, c: nat, k: nat)
    requires c < |table| && k < |table[c].formulas|
    ensures Offset(table, c) + k < |Flatten(table)|
    ensures Flatten(table)[Offset(table, c) + k] == ToRow(table[c], table[c].formulas[k])
  {
    FlattenLength(table);
    if c == 0 {
    } else {
      FlattenAt(table[1..], c - 1, k);
    }
  }

  /** Every row comes from some formula of some chapter. */
  lemma {:induction false} FlattenOrigin(table: seq<Chapter>, i: nat) returns (c: nat, k: nat)
    requires i < |Flatten(table)|
    ensures c < |table| && k < |table[c].formulas|
    ensures i == Offset(table, c) + k
  {
    FlattenLength(table);
    var n := |table[0].formulas|;
    if i < n {
      c, k := 0, i;
    } else {
      c, k := FlattenOrigin(table[1..], i - n);
      c := c + 1;
    }
  }

  // Facts about the table itself.

  predicate DistinctIds(table: seq<Chapter>) {
    forall i, j :: 0 <= i < j < |table| ==> table[i].id != table[j].id
  }

  /** With distinct ids, looking a chapter up by its own id finds that chapter. */
  lemma FindChapterOwnId(table: seq<Chapter>, k: nat)
    requires DistinctIds(table) && k < |table|
    ensures FindChapter(table, table[k].id) == Some(table[k])
  {
    var r := FindChapter(table, table[k].id);
    var m :| 0 <= m < |table| && table[m] == r.value && r.value.id == table[k].id &&
             forall j :: 0 <= j < m ==> table[j].id != table[k].id;
    assert m == k;
  }

  /** The ids are "15" through "34", in order. */
  lemma PhysicsTableIds()
    ensures |PhysicsTable| == 20
    ensures forall i :: 0 <= i < 20 ==> PhysicsTable[i].id == NatToString(15 + i)
  {
    PhysicsTableIdsIn0();
    PhysicsTableIdsIn5();
    PhysicsTableIdsIn10();
    PhysicsTableIdsIn15();
  }

  lemma PhysicsTableIdsIn0()
    ensures forall i :: 0 <= i < 5 ==> PhysicsTable[i].id == NatToString(15 + i)
  {
  }

  lemma PhysicsTableIdsIn5()
    ensures forall i :: 5 <= i < 10 ==> PhysicsTable[i].id == NatToString(15 + i)
  {
  }

  lemma PhysicsTableIdsIn10()
    ensures forall i :: 10 <= i < 15 ==> PhysicsTable[i].id == NatToString(15 + i)
  {
  }

  lemma PhysicsTableIdsIn15()
    ensures forall i :: 15 <= i < 20 ==> PhysicsTable[i].id == NatToString(15 + i)
  {
  }

  /** Ids "15", "16", ... in order are pairwise distinct. */
  lemma NumberedIdsDistinct(table: seq<Chapter>)
    requires forall i :: 0 <= i < |table| ==> table[i].id == NatToString(15 + i)
    ensures DistinctIds(table)
  {
    forall i, j | 0 <= i < j < |table|
      ensures table[i].id != table[j].id
    {
      NatToStringInjective(15 + i, 15 + j);
    }
  }

  /** Ids "15", "16", ... in order never include an id whose decimal value lies outside their range. */
  lemma NumberedIdsMiss(table: seq<Chapter>, id: string)
    requires forall i :: 0 <= i < |table| ==> table[i].id == NatToString(15 + i)
    requires DecimalValue(id) < 15 || DecimalValue(id) >= 15 + |table|
    ensures forall k :: 0 <= k < |table| ==> table[k].id != id
  {
    forall k | 0 <= k < |table|
      ensures table[k].id != id
    {
      assert DecimalValue(table[k].id) == 15 + k;
    }
  }

  lemma PhysicsTableDistinctIds()
    ensures DistinctIds(PhysicsTable)
  {
    PhysicsTableIds();
    NumberedIdsDistinct(PhysicsTable);
  }

  /**
   * `getChapterById` finds every chapter of the table by its id, and finds
   * nothing for an id the table does not hold.
   */
  lemma GetChapterByIdFindsEach(id: string)
    ensures forall k :: 0 <= k < |PhysicsTable| && PhysicsTable[k].id == id ==> GetChapterById(id) == Some(PhysicsTable[k])
    ensures (forall k :: 0 <= k < |PhysicsTable| ==> PhysicsTable[k].id != id) ==> GetChapterById(id) == None
  {
    PhysicsTableDistinctIds();
    forall k | 0 <= k < |PhysicsTable| && PhysicsTable[k].id == id
      ensures GetChapterById(id) == Some(PhysicsTable[k])
    {
      FindChapterOwnId(PhysicsTable, k);
    }
  }

  predicate WellTitled(ch: Chapter) {
    StartsWith(ch.title, "Ch " + ch.id + ". ")
  }

  /** Every title reads "Ch <id>. " followed by the topic. */
  lemma PhysicsTableTitles()
    ensures forall i :: 0 <= i < |PhysicsTable| ==> WellTitled(PhysicsTable[i])
  {
    PhysicsTableTitlesIn0();
    PhysicsTableTitlesIn5();
    PhysicsTableTitlesIn10();
    PhysicsTableTitlesIn15();
  }

  lemma PhysicsTableTitlesIn0()
    ensures forall i :: 0 <= i < 5 ==> WellTitled(PhysicsTable[i])
  {
  }

  lemma PhysicsTableTitlesIn5()
    ensures forall i :: 5 <= i < 10 ==> WellTitled(PhysicsTable[i])
  {
  }

  lemma PhysicsTableTitlesIn10()
    ensures forall i :: 10 <= i < 15 ==> WellTitled(PhysicsTable[i])
  {
  }

  lemma PhysicsTableTitlesIn15()
    ensures forall i :: 15 <= i < 20 ==> WellTitled(PhysicsTable[i])
  {
  }

  /** The number of formulas in the first `n` chapters, counted by index. */
  function CountUpTo(table: seq<Chapter>, n: nat): nat
    requires n <= |table|
  {
    if n == 0 then 0 else CountUpTo(table, n - 1) + |table[n - 1].formulas|
  }

  lemma {:induction false} FormulaCountUpTo(table: seq<Chapter>, n: nat)
    requires n <= |table|
    ensures FormulaCount(table[..n]) == CountUpTo(table, n)
  {
    if n > 0 {
      FormulaCountUpTo(table, n - 1);
      FormulaCountSnoc(table[..n - 1], table[n - 1]);
      assert table[..n] == table[..n - 1] + [table[n - 1]];
    }
  }

  lemma {:induction false} FormulaCountSnoc(table: seq<Chapter>, ch: Chapter)
    ensures FormulaCount(table + [ch]) == FormulaCount(table) + |ch.formulas|
  {
    if table != [] {
      assert (table + [ch])[1..] == table[1..] + [ch];
      FormulaCountSnoc(table[1..], ch);
    }
  }

  lemma PhysicsTableFormulaCount()
    ensures FormulaCount(PhysicsTable) == 65
  {
    CountIn0();
    CountIn5();
    CountIn10();
    CountIn15();
    FormulaCountUpTo(PhysicsTable, 20);
    assert PhysicsTable[..20] == PhysicsTable;
  }

  lemma CountIn0()
    ensures |PhysicsTable| == 20 && CountUpTo(PhysicsTable, 5) == 22
  {
    assert CountUpTo(PhysicsTable, 1) == 7;
    assert CountUpTo(PhysicsTable, 2) == 12;
    assert CountUpTo(PhysicsTable, 3) == 16;
    assert CountUpTo(PhysicsTable, 4) == 19;
    assert CountUpTo(PhysicsTable, 5) == 22;
  }

  lemma CountIn5()
    requires CountUpTo(PhysicsTable, 5) == 22
    ensures |PhysicsTable| == 20 && CountUpTo(PhysicsTable, 10) == 33
  {
    assert CountUpTo(PhysicsTable, 6) == 24;
    assert CountUpTo(PhysicsTable, 7) == 26;
    assert CountUpTo(PhysicsTable, 8) == 28;
    assert CountUpTo(PhysicsTable, 9) == 30;
    assert CountUpTo(PhysicsTable, 10) == 33;
  }

  lemma CountIn10()
    requires CountUpTo(PhysicsTable, 10) == 33
    ensures |PhysicsTable| == 20 && CountUpTo(PhysicsTable, 15) == 50
  {
    assert CountUpTo(PhysicsTable, 11) == 37;
    assert CountUpTo(PhysicsTable, 12) == 40;
    assert CountUpTo(PhysicsTable, 13) == 43;
    assert CountUpTo(PhysicsTable, 14) == 46;
    assert CountUpTo(PhysicsTable, 15) == 50;
  }

  lemma CountIn15()
    requires CountUpTo(PhysicsTable, 15) == 50
    ensures |PhysicsTable| == 20 && CountUpTo(PhysicsTable, 20) == 65
  {
    assert CountUpTo(PhysicsTable, 16) == 53;
    assert CountUpTo(PhysicsTable, 17) == 56;
    assert CountUpTo(PhysicsTable, 18) == 59;
    assert CountUpTo(PhysicsTable, 19) == 62;
    assert CountUpTo(PhysicsTable, 20) == 65;
  }

  /** The flattened list has one row per formula: 65 rows for the 20 chapters. */
  lemma GetAllFormulasLength()
    ensures |GetAllFormulas()| == FormulaCount(PhysicsTable) == 65
  {
    FlattenLength(PhysicsTable);
    PhysicsTableFormulaCount();
  }

  /** Looking up "15" finds chapter 15; looking up "99" finds nothing. */
  lemma LookupScenario()
    ensures GetChapterById("15") == Some(Ch15)
    ensures GetChapterById("99") == None
  {
    PhysicsTableIds();
    GetChapterByIdFindsEach("15");
    assert PhysicsTable[0] == Ch15;
    GetChapterByIdFindsEach("99");
    assert DecimalValue("99") == 99;
    NumberedIdsMiss(PhysicsTable, "99");
  }

  /** The spring-period formula appears in the flattened list with chapter 15's id and title. */
  lemma SpringPeriodRowScenario()
    ensures FormulaRow("Period (Spring)", Ch15Formulas[4].latex, "15", Ch15.title) in GetAllFormulas()
  {
    FlattenAt(PhysicsTable, 0, 4);
  }
}
