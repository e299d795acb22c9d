/**
 * The live preview (components/ReportPreview.tsx) as a layout: which cover
 * variant is drawn, the three page containers, which sections each holds,
 * and how table rows are numbered. Markup and styling are not modelled.
 */
module Preview {
  import opened Wrappers
  import opened Types
  import opened Gateway
  import opened Form

  /** The cover: its variant, the title block (fixed title, editable period) if the variant has one, period, department. */
  datatype Cover = Cover(variant: CoverTheme, title: Option<string>, period: string, department: string)

  /** The department, period, manager and contact lines at the top of page two. */
  datatype Identity = Identity(department: string, period: string, manager: string, contact: string)

  /** A table row: its displayed number and the activity whose five fields fill the cells. */
  datatype Row = Row(number: nat, activity: Activity)

  datatype Table = Table(header: seq<string>, rows: seq<Row>)

  /** Each sub-list is present only when non-empty, one bullet per entry. */
  datatype Analysis = Analysis(progress: Option<seq<string>>, impacts: Option<seq<string>>, challenges: Option<seq<string>>)

  datatype Signature = Signature(date: string, office: string, secretary: string, director: string)

  datatype Page =
    | CoverPage(cover: Cover)
    | MainPage(heading: string, identity: Identity, introduction: string, table: Option<Table>)
    | ClosingPage(analysis: Option<Analysis>, recommendations: Option<seq<string>>, signature: Signature)

  datatype Section =
    | CoverSection | IdentitySection | IntroductionSection | ActivityTableSection
    | AnalysisSection | ProgressList | ImpactList | ChallengeList
    | RecommendationsSection | SignatureSection

  /** `hasActivites`. */
  predicate HasActivities(r: Report) { |r.activites| > 0 }

  /** `hasAnalyse`. */
  predicate HasAnalysis(r: Report) { |r.progres| > 0 || |r.impacts| > 0 || |r.defis| > 0 }

  /** `hasRecommandations`. */
  predicate HasRecommendations(r: Report) { |r.recommandations| > 0 }

  const DefaultTitle: string := "Rapport Trimestriel"

  /** The dotted placeholder on page two when no department is set (twenty dots). */
  const DepartmentPlaceholder: string := "...................."

  /** The cover title: `titreRapport`, or the default when it is empty. */
  function CoverTitle(r: Report): (s: string)
    ensures r.titreRapport != "" ==> s == r.titreRapport
    ensures r.titreRapport == "" ==> s == DefaultTitle
    ensures s != ""
  {
    if r.titreRapport != "" then r.titreRapport else DefaultTitle
  }

  /** The variants whose layout includes the title block (fixed title, editable period); the others print a fixed heading. */
  predicate HasTitleBlock(t: CoverTheme)
  {
    t in {Official, Prestige, Architect, Vintage}
  }

  /** The cover drawn by one `case` of the theme switch. */
  function CoverFor(t: CoverTheme, r: Report): (c: Cover)
    ensures c.variant == t
    ensures c.title.Some? <==> HasTitleBlock(t)
    ensures c.title.Some? ==> c.title.value == CoverTitle(r)
    ensures c.period == r.periodeCouverte && c.department == r.nomDepartement
  {
    Cover(t, if HasTitleBlock(t) then Some(CoverTitle(r)) else None, r.periodeCouverte, r.nomDepartement)
  }

  /** `renderCover`: dispatch on the stored theme, with a `default` branch for any other value. */
  function RenderCover(r: Report): (c: Cover)
    ensures ParseTheme(r.coverTheme).Some? ==> c.variant == ParseTheme(r.coverTheme).value
    ensures ParseTheme(r.coverTheme).None? ==> c.variant == Official
  {
    match ParseTheme(r.coverTheme)
    case Some(t) => CoverFor(t, r)
    case None => Cover(Official, Some(CoverTitle(r)), r.periodeCouverte, r.nomDepartement)
  }

  /** The default branch draws exactly what the `official` case draws. */
  lemma DefaultCoverIsOfficial(r: Report)
    requires ParseTheme(r.coverTheme).None?
    ensures RenderCover(r) == RenderCover(r.(coverTheme := ThemeName(Official)))
  {
  }

  /** Each of the twelve theme names selects its own variant. */
  lemma EachThemeOwnCover(r: Report, t: CoverTheme)
    ensures RenderCover(r.(coverTheme := ThemeName(t))).variant == t
  {
    ParseThemeName(t);
  }

  /** The fixed column headings of the activity table. */
  const TableHeader: seq<string> := ["N°", "Objectifs", "Réalisation", "Résultats", "Indicateurs", "Observations"]

  /** `activites.map((act, i) => <tr>… {i+1} …</tr>)`. */
  function TableRows(acts: seq<Activity>): (rows: seq<Row>)
    ensures |rows| == |acts|
  {
    seq(|acts|, i requires 0 <= i < |acts| => Row(i + 1, acts[i]))
  }

  /** A sub-list of the analysis section: shown only when it has entries. */
  function Bullets(s: seq<string>): (b: Option<seq<string>>)
    ensures b.Some? <==> |s| > 0
    ensures b.Some? ==> b.value == s
  {
    if |s| > 0 then Some(s) else None
  }

  function MainHeading(r: Report): string
  {
    "RAPPORT TRIMESTRIEL DE : " + (if r.nomDepartement != "" then r.nomDepartement else DepartmentPlaceholder)
  }

  /** The three page containers, in order: cover, main content, analysis and signatures. */
  function Render(r: Report): (pages: seq<Page>)
    ensures |pages| == 3
    ensures pages[0].CoverPage? && pages[1].MainPage? && pages[2].ClosingPage?
  {
    [ CoverPage(RenderCover(r)),
      MainPage(
        MainHeading(r),
        Identity(r.nomDepartement, r.periodeCouverte, r.responsableNom, r.responsableContact),
        r.introductionAnalyse,
        if HasActivities(r) then Some(Table(TableHeader, TableRows(r.activites))) else None),
      ClosingPage(
        if HasAnalysis(r) then Some(Analysis(Bullets(r.progres), Bullets(r.impacts), Bullets(r.defis))) else None,
        if HasRecommendations(r) then Some(r.recommandations) else None,
        Signature(r.dateFait, r.bureauDe, r.nomSecretaire, r.nomDirecteur)) ]
  }

  /** The section tags a page carries, in the order they appear on it. */
  function SectionsOf(p: Page): seq<Section>
  {
    match p
    case CoverPage(_) => [CoverSection]
    case MainPage(_, _, _, table) =>
      [IdentitySection, IntroductionSection] + (if table.Some? then [ActivityTableSection] else [])
    case ClosingPage(analysis, recommendations, _) =>
      (match analysis
       case None => []
       case Some(a) =>
         [AnalysisSection]
         + (if a.progress.Some? then [ProgressList] else [])
         + (if a.impacts.Some? then [ImpactList] else [])
         + (if a.challenges.Some? then [ChallengeList] else []))
      + (if recommendations.Some? then [RecommendationsSection] else [])
      + [SignatureSection]
  }

  /** The section tags of a whole rendering, page by page. */
  function AllSections(pages: seq<Page>): seq<Section>
  {
    if pages == [] then [] else SectionsOf(pages[0]) + AllSections(pages[1..])
  }

  /** The cover, the identity header, the introduction and the signature block are always there. */
  lemma AlwaysPresent(r: Report)
    ensures SectionsOf(Render(r)[0]) == [CoverSection]
    ensures SectionsOf(Render(r)[1])[..2] == [IdentitySection, IntroductionSection]
    ensures SectionsOf(Render(r)[2])[|SectionsOf(Render(r)[2])| - 1] == SignatureSection
  {
  }

  /** `[tag]` when `shown`, nothing otherwise. */
  function Tag(shown: bool, tag: Section): (s: seq<Section>)
    ensures tag in s <==> shown
    ensures forall t :: t in s ==> t == tag
  {
    if shown then [tag] else []
  }

  /** Page three's tags, written out from the report. */
  lemma ClosingSections(r: Report)
    ensures SectionsOf(Render(r)[2]) ==
      (if HasAnalysis(r)
       then [AnalysisSection] + Tag(|r.progres| > 0, ProgressList) + Tag(|r.impacts| > 0, ImpactList)
            + Tag(|r.defis| > 0, ChallengeList)
       else [])
      + Tag(HasRecommendations(r), RecommendationsSection) + [SignatureSection]
  {
  }

  /** Which sections appear is decided by the non-emptiness of their lists, and by nothing else. */
  lemma SectionVisibility(r: Report)
    ensures ActivityTableSection in SectionsOf(Render(r)[1]) <==> |r.activites| > 0
    ensures AnalysisSection in SectionsOf(Render(r)[2]) <==> |r.progres| > 0 || |r.impacts| > 0 || |r.defis| > 0
    ensures ProgressList in SectionsOf(Render(r)[2]) <==> |r.progres| > 0
    ensures ImpactList in SectionsOf(Render(r)[2]) <==> |r.impacts| > 0
    ensures ChallengeList in SectionsOf(Render(r)[2]) <==> |r.defis| > 0
    ensures RecommendationsSection in SectionsOf(Render(r)[2]) <==> |r.recommandations| > 0
  {
    ClosingSections(r);
    var p, q, d := Tag(|r.progres| > 0, ProgressList), Tag(|r.impacts| > 0, ImpactList), Tag(|r.defis| > 0, ChallengeList);
    var a := if HasAnalysis(r) then [AnalysisSection] + p + q + d else [];
    var rec := Tag(HasRecommendations(r), RecommendationsSection);
    assert SectionsOf(Render(r)[2]) == a + rec + [SignatureSection];
    assert AnalysisSection in a <==> HasAnalysis(r);
    assert ProgressList in a <==> |r.progres| > 0;
    assert ImpactList in a <==> |r.impacts| > 0;
    assert ChallengeList in a <==> |r.defis| > 0;
    assert RecommendationsSection !in a;
  }

  /** The whole rendering: three containers whose sections are the cover, then page two's, then page three's. */
  lemma RenderSections(r: Report)
    ensures AllSections(Render(r)) == SectionsOf(Render(r)[0]) + SectionsOf(Render(r)[1]) + SectionsOf(Render(r)[2])
  {
    var p := Render(r);
    assert p[1..][1..][1..] == [];
    assert AllSections(p[1..][1..]) == SectionsOf(p[2]);
  }

  /** The table has the fixed six headings and one row per activity, in order, numbered `i + 1`. */
  lemma TableLayout(r: Report, i: nat)
    requires i < |r.activites|
    ensures Render(r)[1].table.Some?
    ensures Render(r)[1].table.value.header == TableHeader && |TableHeader| == 6
    ensures |Render(r)[1].table.value.rows| == |r.activites|
    ensures Render(r)[1].table.value.rows[i].number == i + 1
    ensures Render(r)[1].table.value.rows[i].activity == r.activites[i]
  {
  }

  /** Inside the analysis section every non-empty sub-list is drawn with one bullet per entry, in order. */
  lemma AnalysisBullets(r: Report)
    requires HasAnalysis(r)
    ensures Render(r)[2].analysis.Some?
    ensures |r.progres| > 0 ==> Render(r)[2].analysis.value.progress == Some(r.progres)
    ensures |r.impacts| > 0 ==> Render(r)[2].analysis.value.impacts == Some(r.impacts)
    ensures |r.defis| > 0 ==> Render(r)[2].analysis.value.challenges == Some(r.defis)
  {
  }

  /** The page-two heading names the department, or shows the dotted placeholder. */
  lemma HeadingFallback(r: Report)
    ensures r.nomDepartement != "" ==> MainHeading(r) == "RAPPORT TRIMESTRIEL DE : " + r.nomDepartement
    ensures r.nomDepartement == "" ==> MainHeading(r) == "RAPPORT TRIMESTRIEL DE : " + DepartmentPlaceholder
    ensures |DepartmentPlaceholder| == 20
  {
  }

  /**
   * What the always-present sections show: the identity block and the
   * introduction on page two, the signature block on page three, and the
   * recommendations, entry by entry, whenever there are any.
   */
  lemma SectionsShowTheReport(r: Report)
    ensures Render(r)[1].identity == Identity(r.nomDepartement, r.periodeCouverte, r.responsableNom, r.responsableContact)
    ensures Render(r)[1].introduction == r.introductionAnalyse
    ensures Render(r)[2].recommendations.Some? <==> |r.recommandations| > 0
    ensures Render(r)[2].recommendations.Some? ==> Render(r)[2].recommendations.value == r.recommandations
    ensures Render(r)[2].signature == Signature(r.dateFait, r.bureauDe, r.nomSecretaire, r.nomDirecteur)
  {
  }

  /** A list holding one empty entry counts as non-empty: the template shows every section. */
  lemma TemplateShowsEverySection(loadDate: string)
    ensures forall s :: s in AllSections(Render(InitialData(loadDate)))
  {
    var r := InitialData(loadDate);
    RenderSections(r);
    var all := AllSections(Render(r));
    var s0, s1, s2 := SectionsOf(Render(r)[0]), SectionsOf(Render(r)[1]), SectionsOf(Render(r)[2]);
    assert s1 == [IdentitySection, IntroductionSection, ActivityTableSection];
    assert s2 == [AnalysisSection, ProgressList, ImpactList, ChallengeList, RecommendationsSection, SignatureSection];
    assert all == s0 + s1 + s2;
    forall s ensures s in all {
      match s
      case CoverSection => assert all[0] == s;
      case IdentitySection => assert all[1] == s;
      case IntroductionSection => assert all[2] == s;
      case ActivityTableSection => assert all[3] == s;
      case AnalysisSection => assert all[4] == s;
      case ProgressList => assert all[5] == s;
      case ImpactList => assert all[6] == s;
      case ChallengeList => assert all[7] == s;
      case RecommendationsSection => assert all[8] == s;
      case SignatureSection => assert all[9] == s;
    }
  }

  /** A report whose four lists are empty has neither analysis nor recommendations, but keeps the rest. */
  lemma EmptyListsOmitAnalysis(r: Report)
    requires r.progres == [] && r.impacts == [] && r.defis == [] && r.recommandations == []
    ensures SectionsOf(Render(r)[2]) == [SignatureSection]
    ensures SectionsOf(Render(r)[1])[..2] == [IdentitySection, IntroductionSection]
  {
  }

  /**
   * One activity "Visite" and an unknown theme: the default cover is drawn and
   * the table has a single row, numbered 1, whose objectives cell is "Visite".
   */
  lemma UnknownThemeScenario(loadDate: string)
    ensures var r := InitialData(loadDate).(activites := [BlankActivity("1").(objectifs := "Visite")],
                                            coverTheme := "unknown-value");
      && Render(r)[0].cover.variant == Official
      && |Render(r)[1].table.value.rows| == 1
      && Render(r)[1].table.value.rows[0].number == 1
      && Render(r)[1].table.value.rows[0].activity.objectifs == "Visite"
  {
  }

  /** `handleListEdit`: the same copy-and-write as the form's list edit. */
  function HandleListEdit(r: Report, lf: ListField, index: nat, value: string): (r': Report)
    requires index < |GetList(r, lf)|
    ensures UnchangedExcept(r, r', ListKey(lf))
    ensures |GetList(r', lf)| == |GetList(r, lf)|
    ensures GetList(r', lf)[index] == value
    ensures forall j :: 0 <= j < |GetList(r, lf)| && j != index ==> GetList(r', lf)[j] == GetList(r, lf)[j]
  {
    SetField(r, ListKey(lf), Lines(WriteEntry(GetList(r, lf), index, value)))
  }

  /** `handleActivityEdit`: the same map-by-id as the form's activity edit. */
  function HandleActivityEdit(r: Report, id: string, field: ActivityField, value: string): (r': Report)
    ensures UnchangedExcept(r, r', Activites)
    ensures |r'.activites| == |r.activites|
    ensures forall i :: 0 <= i < |r.activites| ==> r'.activites[i].id == r.activites[i].id
    ensures forall i, g :: 0 <= i < |r.activites| ==>
      GetText(r'.activites[i], g) == if r.activites[i].id == id && g == field then value else GetText(r.activites[i], g)
  {
    SetField(r, Activites, Rows(EditById(r.activites, id, field, value)))
  }

  /** The preview's edits and the form's edits are the same operations. */
  lemma PreviewEditsMatchForm(r: Report, lf: ListField, index: nat, id: string, field: ActivityField, value: string)
    requires index < |GetList(r, lf)|
    ensures HandleListEdit(r, lf, index, value) == UpdateList(r, lf, index, value)
    ensures HandleActivityEdit(r, id, field, value) == ChangeActivity(r, id, field, value)
  {
  }
}
