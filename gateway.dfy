/**
 * The update entry point of the editor (App.tsx): the shallow-merge patch,
 * import of a saved file onto the template, the JSON snapshot, and reset.
 */
module Gateway {
  import opened Wrappers
  import opened Types

  /** `Partial<ReportData>`: a field is in the patch when it is `Some`. */
  datatype Patch = Patch(
    trimestreDebut: Option<string>,
    trimestreFin: Option<string>,
    annee: Option<string>,
    titreRapport: Option<string>,
    nomDepartement: Option<string>,
    periodeCouverte: Option<string>,
    responsableNom: Option<string>,
    responsableContact: Option<string>,
    introductionAnalyse: Option<string>,
    activites: Option<seq<Activity>>,
    progres: Option<seq<string>>,
    impacts: Option<seq<string>>,
    defis: Option<seq<string>>,
    recommandations: Option<seq<string>>,
    dateFait: Option<string>,
    bureauDe: Option<string>,
    nomSecretaire: Option<string>,
    nomDirecteur: Option<string>,
    coverTheme: Option<string>)

  const EmptyPatch: Patch := Patch(None, None, None, None, None, None, None, None, None, None, None, None, None, None, None, None, None, None, None)

  function Lift<T>(o: Option<T>, wrap: T -> FieldValue): (r: Option<FieldValue>)
    ensures r.Some? <==> o.Some?
    ensures o.Some? ==> r.value == wrap(o.value)
  {
    match o
    case Some(v) => Some(wrap(v))
    case None => None
  }

  /** The value a patch carries for field `f`, if it carries one. */
  function PatchGet(p: Patch, f: Field): Option<FieldValue>
  {
    match f
    case TrimestreDebut => Lift(p.trimestreDebut, x => Text(x))
    case TrimestreFin => Lift(p.trimestreFin, x => Text(x))
    case Annee => Lift(p.annee, x => Text(x))
    case TitreRapport => Lift(p.titreRapport, x => Text(x))
    case NomDepartement => Lift(p.nomDepartement, x => Text(x))
    case PeriodeCouverte => Lift(p.periodeCouverte, x => Text(x))
    case ResponsableNom => Lift(p.responsableNom, x => Text(x))
    case ResponsableContact => Lift(p.responsableContact, x => Text(x))
    case IntroductionAnalyse => Lift(p.introductionAnalyse, x => Text(x))
    case Activites => Lift(p.activites, x => Rows(x))
    case Progres => Lift(p.progres, x => Lines(x))
    case Impacts => Lift(p.impacts, x => Lines(x))
    case Defis => Lift(p.defis, x => Lines(x))
    case Recommandations => Lift(p.recommandations, x => Lines(x))
    case DateFait => Lift(p.dateFait, x => Text(x))
    case BureauDe => Lift(p.bureauDe, x => Text(x))
    case NomSecretaire => Lift(p.nomSecretaire, x => Text(x))
    case NomDirecteur => Lift(p.nomDirecteur, x => Text(x))
    case CoverThemeField => Lift(p.coverTheme, x => Text(x))
  }

  /** The field view of a merge: a patched field takes the patch value, any other keeps its old one. */
  ghost predicate MergedFrom(r: Report, p: Patch, r': Report)
  {
    forall f :: Get(r', f) == PatchGet(p, f).GetOr(Get(r, f))
  }

  lemma MergeFieldwise(r: Report, p: Patch, r': Report)
    requires r' == Report(
      p.trimestreDebut.GetOr(r.trimestreDebut), p.trimestreFin.GetOr(r.trimestreFin),
      p.annee.GetOr(r.annee), p.titreRapport.GetOr(r.titreRapport),
      p.nomDepartement.GetOr(r.nomDepartement), p.periodeCouverte.GetOr(r.periodeCouverte),
      p.responsableNom.GetOr(r.responsableNom), p.responsableContact.GetOr(r.responsableContact),
      p.introductionAnalyse.GetOr(r.introductionAnalyse), p.activites.GetOr(r.activites),
      p.progres.GetOr(r.progres), p.impacts.GetOr(r.impacts), p.defis.GetOr(r.defis),
      p.recommandations.GetOr(r.recommandations), p.dateFait.GetOr(r.dateFait),
      p.bureauDe.GetOr(r.bureauDe), p.nomSecretaire.GetOr(r.nomSecretaire),
      p.nomDirecteur.GetOr(r.nomDirecteur), p.coverTheme.GetOr(r.coverTheme))
    ensures MergedFrom(r, p, r')
  {
    forall f ensures Get(r', f) == PatchGet(p, f).GetOr(Get(r, f)) {
      match f
      case TrimestreDebut =>
      case TrimestreFin =>
      case Annee =>
      case TitreRapport =>
      case NomDepartement =>
      case PeriodeCouverte =>
      case ResponsableNom =>
      case ResponsableContact =>
      case IntroductionAnalyse =>
      case Activites =>
      case Progres =>
      case Impacts =>
      case Defis =>
      case Recommandations =>
      case DateFait =>
      case BureauDe =>
      case NomSecretaire =>
      case NomDirecteur =>
      case CoverThemeField =>
    }
  }

  /** `{ ...prev, ...updates }`. List fields are replaced wholesale, never merged element-wise. */
  function Merge(r: Report, p: Patch): (r': Report)
    ensures MergedFrom(r, p, r')
  {
    var r' := Report(
      trimestreDebut := p.trimestreDebut.GetOr(r.trimestreDebut),
      trimestreFin := p.trimestreFin.GetOr(r.trimestreFin),
      annee := p.annee.GetOr(r.annee),
      titreRapport := p.titreRapport.GetOr(r.titreRapport),
      nomDepartement := p.nomDepartement.GetOr(r.nomDepartement),
      periodeCouverte := p.periodeCouverte.GetOr(r.periodeCouverte),
      responsableNom := p.responsableNom.GetOr(r.responsableNom),
      responsableContact := p.responsableContact.GetOr(r.responsableContact),
      introductionAnalyse := p.introductionAnalyse.GetOr(r.introductionAnalyse),
      activites := p.activites.GetOr(r.activites),
      progres := p.progres.GetOr(r.progres),
      impacts := p.impacts.GetOr(r.impacts),
      defis := p.defis.GetOr(r.defis),
      recommandations := p.recommandations.GetOr(r.recommandations),
      dateFait := p.dateFait.GetOr(r.dateFait),
      bureauDe := p.bureauDe.GetOr(r.bureauDe),
      nomSecretaire := p.nomSecretaire.GetOr(r.nomSecretaire),
      nomDirecteur := p.nomDirecteur.GetOr(r.nomDirecteur),
      coverTheme := p.coverTheme.GetOr(r.coverTheme));
    MergeFieldwise(r, p, r');
    r'
  }

  /** The result of a merge is fixed by the field view: nothing else can change. */
  lemma MergeUnique(r: Report, p: Patch, r': Report)
    requires MergedFrom(r, p, r')
    ensures r' == Merge(r, p)
  {
    forall f ensures Get(r', f) == Get(Merge(r, p), f) { }
    ReportExtensional(r', Merge(r, p));
  }

  /** Whether `v` has the type of field `f`. */
  predicate Fits(f: Field, v: FieldValue)
  {
    match f
    case Activites => v.Rows?
    case Progres | Impacts | Defis | Recommandations => v.Lines?
    case _ => v.Text?
  }

  /** Every field holds a value of its own kind. */
  lemma GetFits(r: Report, f: Field)
    ensures Fits(f, Get(r, f))
  {
  }

  /** The one-field patch `{ [f]: v }` that every input of the editor sends. */
  function SingleField(f: Field, v: FieldValue): (p: Patch)
    requires Fits(f, v)
    ensures forall g :: PatchGet(p, g) == if g == f then Some(v) else None
  {
    match f
    case TrimestreDebut => EmptyPatch.(trimestreDebut := Some(v.s))
    case TrimestreFin => EmptyPatch.(trimestreFin := Some(v.s))
    case Annee => EmptyPatch.(annee := Some(v.s))
    case TitreRapport => EmptyPatch.(titreRapport := Some(v.s))
    case NomDepartement => EmptyPatch.(nomDepartement := Some(v.s))
    case PeriodeCouverte => EmptyPatch.(periodeCouverte := Some(v.s))
    case ResponsableNom => EmptyPatch.(responsableNom := Some(v.s))
    case ResponsableContact => EmptyPatch.(responsableContact := Some(v.s))
    case IntroductionAnalyse => EmptyPatch.(introductionAnalyse := Some(v.s))
    case DateFait => EmptyPatch.(dateFait := Some(v.s))
    case BureauDe => EmptyPatch.(bureauDe := Some(v.s))
    case NomSecretaire => EmptyPatch.(nomSecretaire := Some(v.s))
    case NomDirecteur => EmptyPatch.(nomDirecteur := Some(v.s))
    case CoverThemeField => EmptyPatch.(coverTheme := Some(v.s))
    case Activites => EmptyPatch.(activites := Some(v.rows))
    case Progres => EmptyPatch.(progres := Some(v.lines))
    case Impacts => EmptyPatch.(impacts := Some(v.lines))
    case Defis => EmptyPatch.(defis := Some(v.lines))
    case Recommandations => EmptyPatch.(recommandations := Some(v.lines))
  }

  /** Every field but `f` is the same in `r` and `r'`. */
  ghost predicate UnchangedExcept(r: Report, r': Report, f: Field)
  {
    forall g :: g != f ==> Get(r', g) == Get(r, g)
  }

  /** A one-field update writes that field and leaves the other eighteen alone. */
  function SetField(r: Report, f: Field, v: FieldValue): (r': Report)
    requires Fits(f, v)
    ensures Get(r', f) == v
    ensures UnchangedExcept(r, r', f)
  {
    Merge(r, SingleField(f, v))
  }

  /**
   * A controlled input writing back the value it shows changes nothing: the
   * one-field update of `f` with `f`'s current value is the identity.
   */
  lemma SetFieldSameValue(r: Report, f: Field)
    ensures Fits(f, Get(r, f)) && SetField(r, f, Get(r, f)) == r
  {
    GetFits(r, f);
    var r' := SetField(r, f, Get(r, f));
    forall g ensures Get(r', g) == Get(r, g) {
    }
    ReportExtensional(r', r);
  }

  /** An empty patch is a no-op. */
  lemma MergeEmpty(r: Report)
    ensures Merge(r, EmptyPatch) == r
  {
    forall f ensures Get(Merge(r, EmptyPatch), f) == Get(r, f) {
      assert PatchGet(EmptyPatch, f) == None;
    }
    ReportExtensional(Merge(r, EmptyPatch), r);
  }

  function Later<T>(first: Option<T>, second: Option<T>): Option<T>
  {
    if second.Some? then second else first
  }

  /** The patch equivalent to applying `p` and then `q`. */
  function Compose(p: Patch, q: Patch): (c: Patch)
    ensures forall f :: PatchGet(c, f) == (if PatchGet(q, f).Some? then PatchGet(q, f) else PatchGet(p, f))
  {
    Patch(
      trimestreDebut := Later(p.trimestreDebut, q.trimestreDebut),
      trimestreFin := Later(p.trimestreFin, q.trimestreFin),
      annee := Later(p.annee, q.annee),
      titreRapport := Later(p.titreRapport, q.titreRapport),
      nomDepartement := Later(p.nomDepartement, q.nomDepartement),
      periodeCouverte := Later(p.periodeCouverte, q.periodeCouverte),
      responsableNom := Later(p.responsableNom, q.responsableNom),
      responsableContact := Later(p.responsableContact, q.responsableContact),
      introductionAnalyse := Later(p.introductionAnalyse, q.introductionAnalyse),
      activites := Later(p.activites, q.activites),
      progres := Later(p.progres, q.progres),
      impacts := Later(p.impacts, q.impacts),
      defis := Later(p.defis, q.defis),
      recommandations := Later(p.recommandations, q.recommandations),
      dateFait := Later(p.dateFait, q.dateFait),
      bureauDe := Later(p.bureauDe, q.bureauDe),
      nomSecretaire := Later(p.nomSecretaire, q.nomSecretaire),
      nomDirecteur := Later(p.nomDirecteur, q.nomDirecteur),
      coverTheme := Later(p.coverTheme, q.coverTheme))
  }

  /** Two sequential patches are one patch in which the later one wins on every shared field. */
  lemma MergeCompose(r: Report, p: Patch, q: Patch)
    ensures Merge(Merge(r, p), q) == Merge(r, Compose(p, q))
  {
    var left, right := Merge(Merge(r, p), q), Merge(r, Compose(p, q));
    forall f ensures Get(left, f) == Get(right, f) {
      assert Get(left, f) == PatchGet(q, f).GetOr(Get(Merge(r, p), f));
    }
    ReportExtensional(left, right);
  }

  /** Applying the same patch twice is applying it once. */
  lemma MergeIdempotent(r: Report, p: Patch)
    ensures Merge(Merge(r, p), p) == Merge(r, p)
  {
    var once := Merge(r, p);
    forall f ensures Get(Merge(once, p), f) == Get(once, f) { }
    ReportExtensional(Merge(once, p), once);
  }

  /** The patch holding every field of `r`: what a saved snapshot of `r` carries. */
  function FullPatch(r: Report): (p: Patch)
    ensures forall f :: PatchGet(p, f) == Some(Get(r, f))
  {
    Patch(
      trimestreDebut := Some(r.trimestreDebut),
      trimestreFin := Some(r.trimestreFin),
      annee := Some(r.annee),
      titreRapport := Some(r.titreRapport),
      nomDepartement := Some(r.nomDepartement),
      periodeCouverte := Some(r.periodeCouverte),
      responsableNom := Some(r.responsableNom),
      responsableContact := Some(r.responsableContact),
      introductionAnalyse := Some(r.introductionAnalyse),
      activites := Some(r.activites),
      progres := Some(r.progres),
      impacts := Some(r.impacts),
      defis := Some(r.defis),
      recommandations := Some(r.recommandations),
      dateFait := Some(r.dateFait),
      bureauDe := Some(r.bureauDe),
      nomSecretaire := Some(r.nomSecretaire),
      nomDirecteur := Some(r.nomDirecteur),
      coverTheme := Some(r.coverTheme))
  }

  /** Merging a complete report over any report, the template included, gives it back unchanged. */
  lemma MergeFull(base: Report, r: Report)
    ensures Merge(base, FullPatch(r)) == r
  {
    forall f ensures Get(Merge(base, FullPatch(r)), f) == Get(r, f) { }
    ReportExtensional(Merge(base, FullPatch(r)), r);
  }

  /**
   * What `JSON.parse` produced, abstractly: an object carries the report fields
   * it names; arrays are objects to the `typeof` test but name no report field.
   */
  datatype Json = JNull | JScalar | JArray | JObject(fields: Patch)

  datatype Parse = ParseError | Parsed(value: Json)

  datatype ImportStatus = NothingRead | Imported | Rejected

  datatype ImportResult = ImportResult(doc: Report, status: ImportStatus)

  /** The report fields an object-typed parse result names. */
  function ObjectFields(j: Json): Patch
  {
    if j.JObject? then j.fields else EmptyPatch
  }

  /**
   * `handleImport` once the file is read: `text` is the file's content and
   * `parsed` what `JSON.parse(text)` gave. An empty file does nothing; a value
   * that is not a non-null object is rejected; otherwise the template, with
   * every imported field laid over it, replaces the document.
   */
  function Import(prev: Report, text: string, parsed: Parse, loadDate: string): (res: ImportResult)
    ensures res.status == Imported <==> text != "" && parsed.Parsed? && (parsed.value.JObject? || parsed.value.JArray?)
    ensures res.status == NothingRead <==> text == ""
    ensures res.status == Imported ==> MergedFrom(InitialData(loadDate), ObjectFields(parsed.value), res.doc)
    ensures res.status != Imported ==> res.doc == prev
  {
    if text == "" then ImportResult(prev, NothingRead)
    else match parsed
      case ParseError => ImportResult(prev, Rejected)
      case Parsed(JObject(fields)) => ImportResult(Merge(InitialData(loadDate), fields), Imported)
      case Parsed(JArray) => ImportResult(Merge(InitialData(loadDate), EmptyPatch), Imported)
      case Parsed(_) => ImportResult(prev, Rejected)
  }

  /** A successful import does not depend on the document it replaces. */
  lemma ImportIgnoresPrevious(a: Report, b: Report, text: string, parsed: Parse, loadDate: string)
    requires Import(a, text, parsed, loadDate).status == Imported
    ensures Import(b, text, parsed, loadDate) == Import(a, text, parsed, loadDate)
  {
  }

  /** Importing an array (an `object` to `typeof`) resets the document to the template. */
  lemma ImportArrayIsReset(prev: Report, text: string, loadDate: string)
    requires text != ""
    ensures Import(prev, text, Parsed(JArray), loadDate) == ImportResult(InitialData(loadDate), Imported)
  {
    MergeEmpty(InitialData(loadDate));
  }

  /** The JSON snapshot of a report (`JSON.stringify(data)` read back by `JSON.parse`). */
  function Snapshot(r: Report): (j: Json)
    ensures j.JObject?
    ensures forall f :: PatchGet(j.fields, f) == Some(Get(r, f))
  {
    JObject(FullPatch(r))
  }

  /** Exporting to JSON and importing that file gives back the exported document, whatever was open. */
  lemma SnapshotRoundTrip(prev: Report, r: Report, text: string, loadDate: string)
    requires text != ""
    ensures Import(prev, text, Parsed(Snapshot(r)), loadDate) == ImportResult(r, Imported)
  {
    MergeFull(InitialData(loadDate), r);
  }

  /** `resetData`: the template replaces the document only when the user confirms. */
  function Reset(prev: Report, confirmed: bool, loadDate: string): (r: Report)
    ensures confirmed ==> r == InitialData(loadDate)
    ensures !confirmed ==> r == prev
  {
    if confirmed then InitialData(loadDate) else prev
  }
}
