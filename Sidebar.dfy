/**
 * The study sidebar: a fixed table of chapter links grouped under section
 * headers, each section listing the chapters whose number it names, and a
 * link highlighted when the current path is its own.
 */
module Sidebar {
  import opened Wrappers
  import opened Strings
  import opened Sequences

  datatype NavChapter = NavChapter(number: nat, title: string, path: string)

  datatype SectionHeader = SectionHeader(title: string, chapters: seq<nat>)

  const ChapterPathPrefix := "/study/chapter/"
  const FormulaSheetPath := "/study/formulas"

  const Chapters: seq<NavChapter> := [
    NavChapter(15, "Oscillations", ChapterPathPrefix + "15"),
    NavChapter(16, "Waves - I", ChapterPathPrefix + "16"),
    NavChapter(17, "Waves - II", ChapterPathPrefix + "17"),
    NavChapter(18, "Temperature, Heat, and First Law", ChapterPathPrefix + "18"),
    NavChapter(19, "Kinetic Theory of Gases", ChapterPathPrefix + "19"),
    NavChapter(20, "Entropy and Second Law", ChapterPathPrefix + "20"),
    NavChapter(21, "Coulomb's Law", ChapterPathPrefix + "21"),
    NavChapter(22, "Electric Fields", ChapterPathPrefix + "22"),
    NavChapter(23, "Gauss' Law", ChapterPathPrefix + "23"),
    NavChapter(24, "Electric Potential", ChapterPathPrefix + "24"),
    NavChapter(25, "Capacitance", ChapterPathPrefix + "25"),
    NavChapter(26, "Current and Resistance", ChapterPathPrefix + "26"),
    NavChapter(27, "Circuits", ChapterPathPrefix + "27"),
    NavChapter(28, "Magnetic Fields", ChapterPathPrefix + "28"),
    NavChapter(29, "Magnetic Fields Due to Currents", ChapterPathPrefix + "29"),
    NavChapter(30, "Induction and Inductance", ChapterPathPrefix + "30"),
    NavChapter(31, "Electromagnetic Oscillations", ChapterPathPrefix + "31"),
    NavChapter(34, "Images", ChapterPathPrefix + "34"),
    NavChapter(35, "Interference", ChapterPathPrefix + "35"),
    NavChapter(36, "Diffraction", ChapterPathPrefix + "36")
  ]

  const Sections: seq<SectionHeader> := [
    SectionHeader("Oscillations & Waves", [15, 16, 17]),
    SectionHeader("Thermodynamics", [18, 19, 20]),
    SectionHeader("Electromagnetism", [21, 22, 23, 24, 25, 26, 27, 28, 29, 30, 31]),
    SectionHeader("Optics", [34, 35, 36])
  ]

  /** `chapters.filter(ch => numbers.includes(ch.number))`. */
  function ChaptersIn(table: seq<NavChapter>, numbers: seq<nat>): seq<NavChapter> {
    if table == [] then []
    else if table[0].number in numbers then [table[0]] + ChaptersIn(table[1..], numbers)
    else ChaptersIn(table[1..], numbers)
  }

  /** The filter keeps, in table order, exactly the chapters whose number is listed. */
  lemma {:induction false} ChaptersInExact(table: seq<NavChapter>, numbers: seq<nat>)
    ensures IsSubsequence(ChaptersIn(table, numbers), table)
    ensures forall c :: c in ChaptersIn(table, numbers) <==> c in table && c.number in numbers
  {
    if table != [] {
      ChaptersInExact(table[1..], numbers);
      assert table == [table[0]] + table[1..];
    }
  }

  /** A link is highlighted exactly when the current path is its own. */
  predicate LinkActive(pathname: string, path: string) {
    pathname == path
  }

  predicate Increasing(table: seq<NavChapter>) {
    forall i, j :: 0 <= i < j < |table| ==> table[i].number < table[j].number
  }

  predicate AdjacentIncreasing(table: seq<NavChapter>) {
    forall i :: 0 <= i < |table| - 1 ==> table[i].number < table[i + 1].number
  }

  lemma {:induction false} AdjacentIncreasingSuffices(table: seq<NavChapter>)
    requires AdjacentIncreasing(table)
    ensures Increasing(table)
  {
    if |table| > 1 {
      AdjacentIncreasingSuffices(table[1..]);
      forall j | 0 < j < |table| ensures table[0].number < table[j].number {
        if j > 1 {
          assert table[1..][0] == table[1] && table[1..][j - 1] == table[j];
        }
      }
    }
  }

  /** The numbers rise strictly through the table, so none repeats. */
  lemma ChapterNumbersIncreasing()
    ensures |Chapters| == 20
    ensures Increasing(Chapters)
  {
    AdjacentIncreasingSuffices(Chapters);
  }

  /** Each link goes to "/study/chapter/" followed by its number. */
  predicate PathsFollowNumbers(table: seq<NavChapter>) {
    forall i :: 0 <= i < |table| ==> table[i].path == ChapterPathPrefix + NatToString(table[i].number)
  }

  lemma ChapterPaths()
    ensures PathsFollowNumbers(Chapters)
  {
    ChapterPathsIn0();
    ChapterPathsIn4();
    ChapterPathsIn8();
    ChapterPathsIn12();
    ChapterPathsIn16();
  }

  lemma ChapterPathsIn0()
    ensures forall i :: 0 <= i < 4 ==> Chapters[i].path == ChapterPathPrefix + NatToString(Chapters[i].number)
  {
  }

  lemma ChapterPathsIn4()
    ensures forall i :: 4 <= i < 8 ==> Chapters[i].path == ChapterPathPrefix + NatToString(Chapters[i].number)
  {
  }

  lemma ChapterPathsIn8()
    ensures forall i :: 8 <= i < 12 ==> Chapters[i].path == ChapterPathPrefix + NatToString(Chapters[i].number)
  {
  }

  lemma ChapterPathsIn12()
    ensures forall i :: 12 <= i < 16 ==> Chapters[i].path == ChapterPathPrefix + NatToString(Chapters[i].number)
  {
  }

  lemma ChapterPathsIn16()
    ensures forall i :: 16 <= i < 20 ==> Chapters[i].path == ChapterPathPrefix + NatToString(Chapters[i].number)
  {
  }

  /**
   * The section a chapter number belongs to, by ranges: 15-17 waves,
   * 18-20 heat, 21-31 electromagnetism, 34-36 optics; -1 for none.
   */
  function SectionOf(n: nat): (s: int)
    ensures -1 <= s < 4
  {
    if 15 <= n <= 17 then 0
    else if 18 <= n <= 20 then 1
    else if 21 <= n <= 31 then 2
    else if 34 <= n <= 36 then 3
    else -1
  }

  /** A section lists a number exactly when the number's range is that section's. */
  lemma SectionsByRange(s: nat, n: nat)
    requires s < |Sections|
    ensures n in Sections[s].chapters <==> SectionOf(n) == s
  {
  }

  /** The table holds exactly the numbers some section lists. */
  lemma ChaptersByRange(n: nat)
    ensures (exists i :: 0 <= i < |Chapters| && Chapters[i].number == n) <==> SectionOf(n) != -1
  {
    if SectionOf(n) != -1 {
      var i := if n <= 31 then n - 15 else n - 17;
      assert Chapters[i].number == n;
    }
    ChapterNumbersInRanges();
  }

  lemma ChapterNumbersInRanges()
    ensures forall i :: 0 <= i < |Chapters| ==> SectionOf(Chapters[i].number) != -1
  {
  }

  /** Every chapter of the table is shown under exactly one section header. */
  lemma EachChapterUnderOneSection(c: NavChapter)
    requires c in Chapters
    ensures exists s :: 0 <= s < |Sections| && c in ChaptersIn(Chapters, Sections[s].chapters)
    ensures forall s :: 0 <= s < |Sections| && c in ChaptersIn(Chapters, Sections[s].chapters) ==> s == SectionOf(c.number)
  {
    ChapterNumbersInRanges();
    var i :| 0 <= i < |Chapters| && Chapters[i] == c;
    var s: nat := SectionOf(c.number);
    forall t | 0 <= t < |Sections|
      ensures c in ChaptersIn(Chapters, Sections[t].chapters) <==> SectionOf(c.number) == t
    {
      ChaptersInExact(Chapters, Sections[t].chapters);
      SectionsByRange(t, c.number);
    }
    assert c in ChaptersIn(Chapters, Sections[s].chapters);
  }

  /** Different numbers give different paths, and no chapter path is the formula sheet's. */
  lemma {:induction false} DistinctPaths(table: seq<NavChapter>)
    requires Increasing(table) && PathsFollowNumbers(table)
    ensures forall i, j :: 0 <= i < j < |table| ==> table[i].path != table[j].path
    ensures forall i :: 0 <= i < |table| ==> table[i].path != FormulaSheetPath
  {
    forall i, j | 0 <= i < j < |table| ensures table[i].path != table[j].path {
      var n := |ChapterPathPrefix|;
      assert table[i].path[n..] == NatToString(table[i].number);
      assert table[j].path[n..] == NatToString(table[j].number);
      NatToStringInjective(table[i].number, table[j].number);
    }
    forall i | 0 <= i < |table| ensures table[i].path != FormulaSheetPath {
      assert table[i].path[7] == ChapterPathPrefix[7];
    }
  }

  /**
   * At most one link is highlighted for any path: chapter paths differ from
   * each other and from the formula sheet's.
   */
  lemma AtMostOneActiveLink(pathname: string)
    ensures forall i, j :: 0 <= i < j < |Chapters| ==>
      !(LinkActive(pathname, Chapters[i].path) && LinkActive(pathname, Chapters[j].path))
    ensures forall i :: 0 <= i < |Chapters| ==>
      !(LinkActive(pathname, Chapters[i].path) && LinkActive(pathname, FormulaSheetPath))
  {
    ChapterNumbersIncreasing();
    ChapterPaths();
    DistinctPaths(Chapters);
  }

  /** The caller's navigation callback; it counts how often it was invoked. */
  class Navigator {
    var calls: nat

    constructor ()
      ensures calls == 0
    {
      calls := 0;
    }

    method Navigate()
      modifies this
      ensures calls == old(calls) + 1
    {
      calls := calls + 1;
    }
  }

  /** `handleClick`: invokes the callback only when one was given. */
  method HandleClick(onNavigate: Option<Navigator>)
    modifies if onNavigate.Some? then {onNavigate.value} else {}
    ensures onNavigate.Some? ==> onNavigate.value.calls == old(onNavigate.value.calls) + 1
  {
    if onNavigate.Some? {
      onNavigate.value.Navigate();
    }
  }
}
