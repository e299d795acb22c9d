/**
 * The report record of the editor (types.ts): one activity table row, the
 * closed set of cover themes, the nineteen-field report and its template.
 */
module Types {
  import opened Wrappers

  /** One row of the activity table: an opaque id plus five free-text fields. */
  datatype Activity = Activity(
    id: string,
    objectifs: string,
    realisations: string,
    resultats: string,
    indicateurs: string,
    observations: string)

  /** The five text fields of an activity (the editable keys of a row). */
  datatype ActivityField = Objectifs | Realisations | Resultats | Indicateurs | Observations

  const ActivityFields: seq<ActivityField> :=
    [Objectifs, Realisations, Resultats, Indicateurs, Observations]

  function GetText(a: Activity, f: ActivityField): string
  {
    match f
    case Objectifs => a.objectifs
    case Realisations => a.realisations
    case Resultats => a.resultats
    case Indicateurs => a.indicateurs
    case Observations => a.observations
  }

  /** `{ ...a, [f]: v }` for one of the five text fields. */
  function SetText(a: Activity, f: ActivityField, v: string): (b: Activity)
    ensures b.id == a.id
    ensures GetText(b, f) == v
    ensures forall g :: g != f ==> GetText(b, g) == GetText(a, g)
  {
    match f
    case Objectifs => a.(objectifs := v)
    case Realisations => a.(realisations := v)
    case Resultats => a.(resultats := v)
    case Indicateurs => a.(indicateurs := v)
    case Observations => a.(observations := v)
  }

  /** An activity is its id plus exactly these five text fields. */
  lemma ActivityExtensional(a: Activity, b: Activity)
    requires a.id == b.id
    requires forall f :: GetText(a, f) == GetText(b, f)
    ensures a == b
  {
    assert GetText(a, Objectifs) == GetText(b, Objectifs);
    assert GetText(a, Realisations) == GetText(b, Realisations);
    assert GetText(a, Resultats) == GetText(b, Resultats);
    assert GetText(a, Indicateurs) == GetText(b, Indicateurs);
    assert GetText(a, Observations) == GetText(b, Observations);
  }

  lemma ActivityFieldsComplete()
    ensures |ActivityFields| == 5
    ensures forall i, j :: 0 <= i < j < |ActivityFields| ==> ActivityFields[i] != ActivityFields[j]
    ensures forall f :: f in ActivityFields
  {
    forall f ensures f in ActivityFields {
      match f
      case Objectifs => assert ActivityFields[0] == f;
      case Realisations => assert ActivityFields[1] == f;
      case Resultats => assert ActivityFields[2] == f;
      case Indicateurs => assert ActivityFields[3] == f;
      case Observations => assert ActivityFields[4] == f;
    }
  }

  /** The closed set of cover variants. */
  datatype CoverTheme =
    | Official | Modern | Minimalist | Celestial | StainedGlass | Ethereal
    | Royal | Eco | Prestige | Architect | Vintage | Spirit

  /** The twelve themes in declaration order. */
  const AllThemes: seq<CoverTheme> :=
    [Official, Modern, Minimalist, Celestial, StainedGlass, Ethereal,
     Royal, Eco, Prestige, Architect, Vintage, Spirit]

  /** The string a theme is stored as in the report. */
  function ThemeName(t: CoverTheme): string
  {
    match t
    case Official => "official"
    case Modern => "modern"
    case Minimalist => "minimalist"
    case Celestial => "celestial"
    case StainedGlass => "stainedglass"
    case Ethereal => "ethereal"
    case Royal => "royal"
    case Eco => "eco"
    case Prestige => "prestige"
    case Architect => "architect"
    case Vintage => "vintage"
    case Spirit => "spirit"
  }

  /** The theme a stored string names, if any (the `case` labels of the cover switch). */
  function ParseTheme(s: string): (r: Option<CoverTheme>)
    ensures r.Some? ==> ThemeName(r.value) == s
  {
    if s == "official" then Some(Official)
    else if s == "modern" then Some(Modern)
    else if s == "minimalist" then Some(Minimalist)
    else if s == "celestial" then Some(Celestial)
    else if s == "stainedglass" then Some(StainedGlass)
    else if s == "ethereal" then Some(Ethereal)
    else if s == "royal" then Some(Royal)
    else if s == "eco" then Some(Eco)
    else if s == "prestige" then Some(Prestige)
    else if s == "architect" then Some(Architect)
    else if s == "vintage" then Some(Vintage)
    else if s == "spirit" then Some(Spirit)
    else None
  }

  /** Every theme's name parses back to that theme, so the names are twelve distinct strings. */
  lemma ParseThemeName(t: CoverTheme)
    ensures ParseTheme(ThemeName(t)) == Some(t)
  {
  }

  /** There are twelve themes, listed once each, and no two share a name. */
  lemma ThemesDistinct()
    ensures |AllThemes| == 12
    ensures forall t, u :: ThemeName(t) == ThemeName(u) ==> t == u
    ensures forall t :: t in AllThemes
  {
    forall t, u | ThemeName(t) == ThemeName(u) ensures t == u {
      ParseThemeName(t);
      ParseThemeName(u);
    }
    forall t ensures t in AllThemes {
      match t
      case Official => assert AllThemes[0] == t;
      case Modern => assert AllThemes[1] == t;
      case Minimalist => assert AllThemes[2] == t;
      case Celestial => assert AllThemes[3] == t;
      case StainedGlass => assert AllThemes[4] == t;
      case Ethereal => assert AllThemes[5] == t;
      case Royal => assert AllThemes[6] == t;
      case Eco => assert AllThemes[7] == t;
      case Prestige => assert AllThemes[8] == t;
      case Architect => assert AllThemes[9] == t;
      case Vintage => assert AllThemes[10] == t;
      case Spirit => assert AllThemes[11] == t;
    }
  }

  /**
   * The report. `coverTheme` is kept as a string: an imported file can put any
   * value there, and the cover dispatch falls back to the default on unknown ones.
   */
  datatype Report = Report(
    trimestreDebut: string,
    trimestreFin: string,
    annee: string,
    titreRapport: string,
    nomDepartement: string,
    periodeCouverte: string,
    responsableNom: string,
    responsableContact: string,
    introductionAnalyse: string,
    activites: seq<Activity>,
    progres: seq<string>,
    impacts: seq<string>,
    defis: seq<string>,
    recommandations: seq<string>,
    dateFait: string,
    bureauDe: string,
    nomSecretaire: string,
    nomDirecteur: string,
    coverTheme: string)

  /** The names of the nineteen report fields, used to speak of "every other field". */
  datatype Field =
    | TrimestreDebut | TrimestreFin | Annee | TitreRapport | NomDepartement
    | PeriodeCouverte | ResponsableNom | ResponsableContact | IntroductionAnalyse
    | Activites | Progres | Impacts | Defis | Recommandations
    | DateFait | BureauDe | NomSecretaire | NomDirecteur | CoverThemeField

  const AllFields: seq<Field> :=
    [TrimestreDebut, TrimestreFin, Annee, TitreRapport, NomDepartement,
     PeriodeCouverte, ResponsableNom, ResponsableContact, IntroductionAnalyse,
     Activites, Progres, Impacts, Defis, Recommandations,
     DateFait, BureauDe, NomSecretaire, NomDirecteur, CoverThemeField]

  /** The value held by one field, whatever its type. */
  datatype FieldValue = Text(s: string) | Rows(rows: seq<Activity>) | Lines(lines: seq<string>)

  function Get(r: Report, f: Field): FieldValue
  {
    match f
    case TrimestreDebut => Text(r.trimestreDebut)
    case TrimestreFin => Text(r.trimestreFin)
    case Annee => Text(r.annee)
    case TitreRapport => Text(r.titreRapport)
    case NomDepartement => Text(r.nomDepartement)
    case PeriodeCouverte => Text(r.periodeCouverte)
    case ResponsableNom => Text(r.responsableNom)
    case ResponsableContact => Text(r.responsableContact)
    case IntroductionAnalyse => Text(r.introductionAnalyse)
    case Activites => Rows(r.activites)
    case Progres => Lines(r.progres)
    case Impacts => Lines(r.impacts)
    case Defis => Lines(r.defis)
    case Recommandations => Lines(r.recommandations)
    case DateFait => Text(r.dateFait)
    case BureauDe => Text(r.bureauDe)
    case NomSecretaire => Text(r.nomSecretaire)
    case NomDirecteur => Text(r.nomDirecteur)
    case CoverThemeField => Text(r.coverTheme)
  }

  /** `Get` reads the title, period and contact fields. */
  lemma GetTextView(r: Report)
    ensures Get(r, TrimestreDebut) == Text(r.trimestreDebut)
    ensures Get(r, TrimestreFin) == Text(r.trimestreFin)
    ensures Get(r, Annee) == Text(r.annee)
    ensures Get(r, TitreRapport) == Text(r.titreRapport)
    ensures Get(r, NomDepartement) == Text(r.nomDepartement)
    ensures Get(r, PeriodeCouverte) == Text(r.periodeCouverte)
    ensures Get(r, ResponsableNom) == Text(r.responsableNom)
    ensures Get(r, ResponsableContact) == Text(r.responsableContact)
    ensures Get(r, IntroductionAnalyse) == Text(r.introductionAnalyse)
  {
  }

  /** `Get` reads the activity table and the four lists. */
  lemma GetListView(r: Report)
    ensures Get(r, Activites) == Rows(r.activites)
    ensures Get(r, Progres) == Lines(r.progres)
    ensures Get(r, Impacts) == Lines(r.impacts)
    ensures Get(r, Defis) == Lines(r.defis)
    ensures Get(r, Recommandations) == Lines(r.recommandations)
  {
  }

  /** `Get` reads the signature block and the theme. */
  lemma GetSignatureView(r: Report)
    ensures Get(r, DateFait) == Text(r.dateFait)
    ensures Get(r, BureauDe) == Text(r.bureauDe)
    ensures Get(r, NomSecretaire) == Text(r.nomSecretaire)
    ensures Get(r, NomDirecteur) == Text(r.nomDirecteur)
    ensures Get(r, CoverThemeField) == Text(r.coverTheme)
  {
  }

  /** Two reports that agree on all nineteen fields are the same report. */
  lemma ReportExtensional(a: Report, b: Report)
    requires forall f :: Get(a, f) == Get(b, f)
    ensures a == b
  {
    GetTextView(a);
    GetTextView(b);
    GetListView(a);
    GetListView(b);
    GetSignatureView(a);
    GetSignatureView(b);
  }

  /** The report has exactly nineteen fields. */
  lemma FieldsComplete()
    ensures |AllFields| == 19
    ensures forall i, j :: 0 <= i < j < |AllFields| ==> AllFields[i] != AllFields[j]
    ensures forall f :: f in AllFields
  {
    forall f ensures f in AllFields {
      match f
      case TrimestreDebut => assert AllFields[0] == f;
      case TrimestreFin => assert AllFields[1] == f;
      case Annee => assert AllFields[2] == f;
      case TitreRapport => assert AllFields[3] == f;
      case NomDepartement => assert AllFields[4] == f;
      case PeriodeCouverte => assert AllFields[5] == f;
      case ResponsableNom => assert AllFields[6] == f;
      case ResponsableContact => assert AllFields[7] == f;
      case IntroductionAnalyse => assert AllFields[8] == f;
      case Activites => assert AllFields[9] == f;
      case Progres => assert AllFields[10] == f;
      case Impacts => assert AllFields[11] == f;
      case Defis => assert AllFields[12] == f;
      case Recommandations => assert AllFields[13] == f;
      case DateFait => assert AllFields[14] == f;
      case BureauDe => assert AllFields[15] == f;
      case NomSecretaire => assert AllFields[16] == f;
      case NomDirecteur => assert AllFields[17] == f;
      case CoverThemeField => assert AllFields[18] == f;
    }
  }

  /** The empty activity the template and the "add" button create. */
  function BlankActivity(id: string): (a: Activity)
    ensures a.id == id
    ensures forall f :: GetText(a, f) == ""
  {
    Activity(id, "", "", "", "", "")
  }

  /**
   * INITIAL_DATA. Its `dateFait` is today's date in the French locale, read
   * from the clock when the module loads; here it is the parameter `loadDate`.
   */
  function InitialData(loadDate: string): (r: Report)
    ensures r.activites == [BlankActivity("1")]
    ensures r.progres == [""] && r.impacts == [""] && r.defis == [""] && r.recommandations == [""]
    ensures r.coverTheme == ThemeName(Official)
    ensures r.annee == "2026" && r.titreRapport == "RAPPORT TRIMESTRIEL"
    ensures r.dateFait == loadDate
    ensures forall f :: f !in {Annee, TitreRapport, DateFait, CoverThemeField} && Get(r, f).Text? ==> Get(r, f) == Text("")
  {
    Report(
      trimestreDebut := "",
      trimestreFin := "",
      annee := "2026",
      titreRapport := "RAPPORT TRIMESTRIEL",
      nomDepartement := "",
      periodeCouverte := "",
      responsableNom := "",
      responsableContact := "",
      introductionAnalyse := "",
      activites := [BlankActivity("1")],
      progres := [""],
      impacts := [""],
      defis := [""],
      recommandations := [""],
      dateFait := loadDate,
      bureauDe := "",
      nomSecretaire := "",
      nomDirecteur := "",
      coverTheme := "official")
  }
}
