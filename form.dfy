/**
 * The editing form (components/ReportForm.tsx): activity rows edited by id,
 * the four text lists edited by position, the period auto-fill rule, the
 * merge of an assistant's analysis, and the cover-theme picker. Every edit
 * reaches the report through a one-field patch.
 */
module Form {
  import opened Wrappers
  import opened Types
  import opened Gateway

  // ---------------------------------------------------------------------
  // Activity rows

  /** No two activities share an id (an invariant the editor intends; the source does not enforce it). */
  predicate UniqueIds(acts: seq<Activity>)
  {
    forall i, j :: 0 <= i < j < |acts| ==> acts[i].id != acts[j].id
  }

  predicate HasId(acts: seq<Activity>, id: string)
  {
    exists i :: 0 <= i < |acts| && acts[i].id == id
  }

  /** `acts.map(act => act.id === id ? { ...act, [field]: value } : act)`. */
  function EditById(acts: seq<Activity>, id: string, field: ActivityField, value: string): (r: seq<Activity>)
    ensures |r| == |acts|
    ensures forall i :: 0 <= i < |acts| ==> r[i].id == acts[i].id
    ensures forall i, g :: 0 <= i < |acts| ==>
      GetText(r[i], g) == if acts[i].id == id && g == field then value else GetText(acts[i], g)
  {
    seq(|acts|, i requires 0 <= i < |acts| =>
      if acts[i].id == id then SetText(acts[i], field, value) else acts[i])
  }

  /** An edit addressed to an id that no row has changes nothing. */
  lemma EditAbsentId(acts: seq<Activity>, id: string, field: ActivityField, value: string)
    requires !HasId(acts, id)
    ensures EditById(acts, id, field, value) == acts
  {
  }

  /** An edit keeps the ids, so it keeps them unique. */
  lemma EditKeepsUniqueIds(acts: seq<Activity>, id: string, field: ActivityField, value: string)
    requires UniqueIds(acts)
    ensures UniqueIds(EditById(acts, id, field, value))
  {
  }

  /** The row the "add activity" button appends; `newId` stands for `Date.now().toString()`. */
  function AppendActivity(acts: seq<Activity>, newId: string): (r: seq<Activity>)
    ensures |r| == |acts| + 1
    ensures r[..|acts|] == acts
    ensures r[|acts|].id == newId && forall g :: GetText(r[|acts|], g) == ""
  {
    acts + [BlankActivity(newId)]
  }

  /** Appending a row whose id is fresh keeps the ids unique. */
  lemma AppendKeepsUniqueIds(acts: seq<Activity>, newId: string)
    requires UniqueIds(acts) && !HasId(acts, newId)
    ensures UniqueIds(AppendActivity(acts, newId))
  {
    var r := AppendActivity(acts, newId);
    forall i, j | 0 <= i < j < |r| ensures r[i].id != r[j].id {
      if j == |acts| {
        assert r[i] == acts[i];
      } else {
        assert r[i] == acts[i] && r[j] == acts[j];
      }
    }
  }

  /** `acts.filter(a => a.id !== id)`. */
  function DeleteById(acts: seq<Activity>, id: string): (r: seq<Activity>)
    ensures |r| <= |acts|
    decreases |acts|
  {
    if acts == [] then []
    else (if acts[0].id == id then [] else [acts[0]]) + DeleteById(acts[1..], id)
  }

  /** A row is kept exactly when it was in the table and does not carry the deleted id. */
  lemma {:induction false} DeleteMembers(acts: seq<Activity>, id: string)
    ensures forall x :: x in DeleteById(acts, id) <==> x in acts && x.id != id
    decreases |acts|
  {
    if acts != [] {
      DeleteMembers(acts[1..], id);
      assert acts == [acts[0]] + acts[1..];
    }
  }

  /** Deleting distributes over concatenation: the rows kept stay in their original relative order. */
  lemma {:induction false} DeleteConcat(a: seq<Activity>, b: seq<Activity>, id: string)
    ensures DeleteById(a + b, id) == DeleteById(a, id) + DeleteById(b, id)
    decreases |a|
  {
    if a == [] {
      assert a + b == b;
    } else {
      assert (a + b)[0] == a[0];
      assert (a + b)[1..] == a[1..] + b;
      DeleteConcat(a[1..], b, id);
    }
  }

  /** Deleting an id no row has changes nothing. */
  lemma {:induction false} DeleteAbsentId(acts: seq<Activity>, id: string)
    requires !HasId(acts, id)
    ensures DeleteById(acts, id) == acts
    decreases |acts|
  {
    if acts != [] {
      assert acts[0].id != id;
      assert !HasId(acts[1..], id) by {
        forall i | 0 <= i < |acts[1..]| ensures acts[1..][i].id != id {
          assert acts[1..][i] == acts[i + 1];
        }
      }
      DeleteAbsentId(acts[1..], id);
      assert [acts[0]] + acts[1..] == acts;
    }
  }

  /** A slice of rows none of which carries `id`. */
  lemma NoIdInSlice(acts: seq<Activity>, lo: nat, hi: nat, id: string)
    requires lo <= hi <= |acts|
    requires forall i :: lo <= i < hi ==> acts[i].id != id
    ensures !HasId(acts[lo..hi], id)
  {
    var s := acts[lo..hi];
    forall i | 0 <= i < |s| ensures s[i].id != id {
      assert s[i] == acts[lo + i];
    }
  }

  /** Deleting an id that only the middle row carries removes exactly that row. */
  lemma DeleteMiddle(before: seq<Activity>, x: Activity, after: seq<Activity>)
    requires !HasId(before, x.id) && !HasId(after, x.id)
    ensures DeleteById(before + [x] + after, x.id) == before + after
  {
    var id := x.id;
    DeleteConcat(before + [x], after, id);
    DeleteConcat(before, [x], id);
    DeleteAbsentId(before, id);
    DeleteAbsentId(after, id);
    assert DeleteById([x], id) == [] by {
      assert [x][1..] == [];
    }
  }

  /** With unique ids, deleting the id of row `k` removes exactly row `k`. */
  lemma DeleteUnique(acts: seq<Activity>, k: nat)
    requires UniqueIds(acts) && k < |acts|
    ensures DeleteById(acts, acts[k].id) == acts[..k] + acts[k + 1..]
    ensures |DeleteById(acts, acts[k].id)| == |acts| - 1
  {
    var id := acts[k].id;
    var before, after := acts[..k], acts[k + 1..];
    NoIdInSlice(acts, 0, k, id);
    assert acts[0..k] == before;
    NoIdInSlice(acts, k + 1, |acts|, id);
    assert acts[k + 1..|acts|] == after;
    assert acts == before + [acts[k]] + after;
    DeleteMiddle(before, acts[k], after);
  }

  /** Deleting rows keeps the remaining ids unique. */
  lemma {:induction false} DeleteKeepsUniqueIds(acts: seq<Activity>, id: string)
    requires UniqueIds(acts)
    ensures UniqueIds(DeleteById(acts, id))
    decreases |acts|
  {
    if acts != [] {
      assert UniqueIds(acts[1..]) by {
        forall i, j | 0 <= i < j < |acts[1..]| ensures acts[1..][i].id != acts[1..][j].id {
          assert acts[1..][i] == acts[i + 1] && acts[1..][j] == acts[j + 1];
        }
      }
      DeleteKeepsUniqueIds(acts[1..], id);
      DeleteMembers(acts[1..], id);
      var rest := DeleteById(acts[1..], id);
      var r := DeleteById(acts, id);
      if acts[0].id != id {
        assert r == [acts[0]] + rest;
        forall i, j | 0 <= i < j < |r| ensures r[i].id != r[j].id {
          if i == 0 {
            assert r[j] == rest[j - 1];
            assert rest[j - 1] in acts[1..];
            var m :| 0 <= m < |acts[1..]| && acts[1..][m] == rest[j - 1];
            assert acts[1..][m] == acts[m + 1];
          } else {
            assert r[i] == rest[i - 1] && r[j] == rest[j - 1];
          }
        }
      } else {
        assert r == rest;
      }
    }
  }

  // ---------------------------------------------------------------------
  // Text lists (progres, impacts, defis, recommandations)

  datatype ListField = ProgresList | ImpactsList | DefisList | RecommandationsList

  /** The report field a list name stands for. */
  function ListKey(lf: ListField): (f: Field)
    ensures f in {Progres, Impacts, Defis, Recommandations}
  {
    match lf
    case ProgresList => Progres
    case ImpactsList => Impacts
    case DefisList => Defis
    case RecommandationsList => Recommandations
  }

  /** Distinct list names stand for distinct fields. */
  lemma ListKeyInjective(a: ListField, b: ListField)
    ensures ListKey(a) == ListKey(b) <==> a == b
  {
  }

  function GetList(r: Report, lf: ListField): (s: seq<string>)
    ensures Get(r, ListKey(lf)) == Lines(s)
  {
    match lf
    case ProgresList => r.progres
    case ImpactsList => r.impacts
    case DefisList => r.defis
    case RecommandationsList => r.recommandations
  }

  /** `const newList = [...list]; newList[index] = value`. */
  function WriteEntry(s: seq<string>, index: nat, value: string): (r: seq<string>)
    requires index < |s|
    ensures |r| == |s|
    ensures r[index] == value
    ensures forall j :: 0 <= j < |s| && j != index ==> r[j] == s[j]
  {
    s[index := value]
  }

  /** `[...list, '']`. */
  function AppendEntry(s: seq<string>): (r: seq<string>)
    ensures |r| == |s| + 1
    ensures r[..|s|] == s && r[|s|] == ""
  {
    s + [""]
  }

  /** `list.filter((_, idx) => idx !== index)`: keeps every entry whose position is not `index`. */
  function RemoveEntry(s: seq<string>, index: nat): (r: seq<string>)
    ensures index < |s| ==> |r| == |s| - 1
    ensures index < |s| ==> forall j :: 0 <= j < index ==> r[j] == s[j]
    ensures index < |s| ==> forall j :: index <= j < |r| ==> r[j] == s[j + 1]
    ensures index >= |s| ==> r == s
    decreases |s|
  {
    if s == [] then []
    else RemoveEntry(s[..|s| - 1], index) + (if index == |s| - 1 then [] else [s[|s| - 1]])
  }

  /** Removing an entry is cutting it out: what comes before, then what comes after. */
  lemma RemoveEntryIsCut(s: seq<string>, index: nat)
    requires index < |s|
    ensures RemoveEntry(s, index) == s[..index] + s[index + 1..]
  {
  }

  // ---------------------------------------------------------------------
  // The form's handlers on the report

  /** `handleActivityChange`: only the matching rows, and only their `field`, change. */
  function ChangeActivity(r: Report, id: string, field: ActivityField, value: string): (r': Report)
    ensures UnchangedExcept(r, r', Activites)
    ensures r'.activites == EditById(r.activites, id, field, value)
  {
    SetField(r, Activites, Rows(EditById(r.activites, id, field, value)))
  }

  /** The "add activity" button. */
  function AddActivity(r: Report, newId: string): (r': Report)
    ensures UnchangedExcept(r, r', Activites)
    ensures r'.activites == AppendActivity(r.activites, newId)
  {
    SetField(r, Activites, Rows(AppendActivity(r.activites, newId)))
  }

  /** The delete button of a row. */
  function DeleteActivity(r: Report, id: string): (r': Report)
    ensures UnchangedExcept(r, r', Activites)
    ensures r'.activites == DeleteById(r.activites, id)
  {
    SetField(r, Activites, Rows(DeleteById(r.activites, id)))
  }

  /** `updateList`: writes position `index` of one list; the index comes from rendering that list. */
  function UpdateList(r: Report, lf: ListField, index: nat, value: string): (r': Report)
    requires index < |GetList(r, lf)|
    ensures UnchangedExcept(r, r', ListKey(lf))
    ensures GetList(r', lf) == WriteEntry(GetList(r, lf), index, value)
  {
    SetField(r, ListKey(lf), Lines(WriteEntry(GetList(r, lf), index, value)))
  }

  /** The `+` button of a list. */
  function AppendToList(r: Report, lf: ListField): (r': Report)
    ensures UnchangedExcept(r, r', ListKey(lf))
    ensures GetList(r', lf) == AppendEntry(GetList(r, lf))
  {
    SetField(r, ListKey(lf), Lines(AppendEntry(GetList(r, lf))))
  }

  /** The delete button of a list entry. */
  function RemoveFromList(r: Report, lf: ListField, index: nat): (r': Report)
    ensures UnchangedExcept(r, r', ListKey(lf))
    ensures GetList(r', lf) == RemoveEntry(GetList(r, lf), index)
  {
    SetField(r, ListKey(lf), Lines(RemoveEntry(GetList(r, lf), index)))
  }

  // ---------------------------------------------------------------------
  // Period auto-fill

  /** The effect's condition: start, end and year are filled in and the period is still empty. */
  predicate PeriodReady(r: Report)
  {
    r.trimestreDebut != "" && r.trimestreFin != "" && r.annee != "" && r.periodeCouverte == ""
  }

  /** The label the effect writes, `${debut} à ${fin} ${annee}`. */
  function PeriodLabel(r: Report): (s: string)
    ensures |s| == |r.trimestreDebut| + |r.trimestreFin| + |r.annee| + 4
  {
    r.trimestreDebut + " à " + r.trimestreFin + " " + r.annee
  }

  /** The effect that fills in the coverage period. */
  function AutoFillPeriod(r: Report): (r': Report)
    ensures UnchangedExcept(r, r', PeriodeCouverte)
    ensures PeriodReady(r) ==> r'.periodeCouverte == PeriodLabel(r)
    ensures !PeriodReady(r) ==> r' == r
  {
    if PeriodReady(r) then SetField(r, PeriodeCouverte, Text(PeriodLabel(r))) else r
  }

  /** A period the user typed is never overwritten. */
  lemma AutoFillKeepsTypedPeriod(r: Report)
    requires r.periodeCouverte != ""
    ensures AutoFillPeriod(r) == r
  {
  }

  /** Firing the effect again changes nothing: the label it writes is never empty. */
  lemma AutoFillIdempotent(r: Report)
    ensures AutoFillPeriod(AutoFillPeriod(r)) == AutoFillPeriod(r)
  {
    if PeriodReady(r) {
      assert AutoFillPeriod(r).periodeCouverte == PeriodLabel(r);
      assert !PeriodReady(AutoFillPeriod(r));
    }
  }

  // ---------------------------------------------------------------------
  // Assistant introduction

  /** The white space and line terminators that `String.prototype.trim` strips. */
  predicate IsSpace(c: char)
  {
    c in {' ', '\t', '\n', '\r', '\U{000B}', '\U{000C}', '\U{00A0}', '\U{1680}', '\U{2028}', '\U{2029}',
          '\U{202F}', '\U{205F}', '\U{3000}', '\U{FEFF}'}
    || ('\U{2000}' <= c <= '\U{200A}')
  }

  /** Drops the leading white space. */
  function TrimStart(s: string): (r: string)
    ensures |r| <= |s| && r == s[|s| - |r|..]
    ensures forall i :: 0 <= i < |s| - |r| ==> IsSpace(s[i])
    ensures r == [] || !IsSpace(r[0])
    decreases |s|
  {
    if s != [] && IsSpace(s[0]) then TrimStart(s[1..]) else s
  }

  /** Drops the trailing white space. */
  function TrimEnd(s: string): (r: string)
    ensures |r| <= |s| && r == s[..|r|]
    ensures forall i :: |r| <= i < |s| ==> IsSpace(s[i])
    ensures r == [] || !IsSpace(r[|r| - 1])
    decreases |s|
  {
    if s != [] && IsSpace(s[|s| - 1]) then TrimEnd(s[..|s| - 1]) else s
  }

  /** `s.trim()`. */
  function Trim(s: string): (r: string)
    ensures |r| <= |s|
  {
    TrimEnd(TrimStart(s))
  }

  /** Trimming gives the empty text exactly when the text is white space only. */
  lemma TrimBlank(s: string)
    ensures Trim(s) == [] <==> forall i :: 0 <= i < |s| ==> IsSpace(s[i])
  {
    var t := TrimStart(s);
    assert t == s[|s| - |t|..];
    assert t != [] ==> t[0] == s[|s| - |t|] && !IsSpace(s[|s| - |t|]);
  }

  /** Where the trimmed text starts in `s`. */
  function TrimFrom(s: string): nat
  {
    |s| - |TrimStart(s)|
  }

  /** The trimmed text is the slice of `s` that starts at `TrimFrom(s)`. */
  lemma TrimIsSlice(s: string)
    ensures TrimFrom(s) + |Trim(s)| <= |s|
    ensures Trim(s) == s[TrimFrom(s)..TrimFrom(s) + |Trim(s)|]
  {
    var t := TrimStart(s);
    var u := TrimEnd(t);
    assert t == s[TrimFrom(s)..];
    assert u == t[..|u|];
  }

  /** The trimmed text neither begins nor ends with white space. */
  lemma TrimmedEnds(s: string)
    ensures Trim(s) == [] || (!IsSpace(Trim(s)[0]) && !IsSpace(Trim(s)[|Trim(s)| - 1]))
  {
    var t := TrimStart(s);
    var u := TrimEnd(t);
    if u != [] {
      assert u[0] == t[0];
    }
  }

  /** Trimming twice is trimming once. */
  lemma TrimIdempotent(s: string)
    ensures Trim(Trim(s)) == Trim(s)
  {
    var u := Trim(s);
    TrimmedEnds(s);
    assert TrimStart(u) == u;
    assert TrimEnd(u) == u;
  }

  /**
   * The "introduction" branch of `generateAIContent`: a non-empty reply,
   * trimmed, replaces the introduction; no reply or an empty one changes nothing.
   */
  function ApplyIntroduction(r: Report, reply: Option<string>): (r': Report)
    ensures UnchangedExcept(r, r', IntroductionAnalyse)
    ensures reply.Some? && reply.value != "" ==> r'.introductionAnalyse == Trim(reply.value)
    ensures reply.None? || reply.value == "" ==> r' == r
  {
    if reply.Some? && reply.value != "" then SetField(r, IntroductionAnalyse, Text(Trim(reply.value))) else r
  }

  // ---------------------------------------------------------------------
  // Assistant analysis

  /**
   * The four lists read from the assistant's JSON answer. A list is `Some`
   * when the answer holds a truthy value there (any array, even an empty one).
   */
  datatype AnalysisAnswer = AnalysisAnswer(
    progres: Option<seq<string>>,
    impacts: Option<seq<string>>,
    defis: Option<seq<string>>,
    recommandations: Option<seq<string>>)

  /** What `JSON.parse` made of the cleaned answer. `parsed.progres` on `null` throws. */
  datatype AnswerParse = NotJson | JsonNull | JsonValue(answer: AnalysisAnswer)

  function AnswerList(a: AnalysisAnswer, lf: ListField): Option<seq<string>>
  {
    match lf
    case ProgresList => a.progres
    case ImpactsList => a.impacts
    case DefisList => a.defis
    case RecommandationsList => a.recommandations
  }

  /**
   * The "full analysis" branch of `generateAIContent`. The call awaits the
   * assistant, so two states are involved: `atRequest`, the report the
   * handler closed over when the request was sent, which supplies the
   * fallback of every list the answer leaves out (`parsed.progres ||
   * data.progres`), and `atReply`, the report when the reply arrives, which
   * the merge is laid over. `reply` is what the assistant call returned
   * (`None` for a missing key or a failed call) and `parsed` what its JSON
   * reading gave.
   */
  function ApplyAnalysis(atRequest: Report, atReply: Report, reply: Option<string>, parsed: AnswerParse): (r': Report)
    ensures (reply.None? || reply.value == "" || !parsed.JsonValue?) ==> r' == atReply
    ensures forall f :: f !in {Progres, Impacts, Defis, Recommandations} ==> Get(r', f) == Get(atReply, f)
    ensures reply.Some? && reply.value != "" && parsed.JsonValue? ==>
      forall lf :: GetList(r', lf) == AnswerList(parsed.answer, lf).GetOr(GetList(atRequest, lf))
  {
    if reply.None? || reply.value == "" then atReply
    else match parsed
      case JsonValue(a) =>
        Merge(atReply, EmptyPatch.(
          progres := Some(a.progres.GetOr(atRequest.progres)),
          impacts := Some(a.impacts.GetOr(atRequest.impacts)),
          defis := Some(a.defis.GetOr(atRequest.defis)),
          recommandations := Some(a.recommandations.GetOr(atRequest.recommandations))))
      case _ => atReply
  }

  /** When nothing was edited while the call was pending, an answer that names none of the four lists leaves the report as it was. */
  lemma EmptyAnswerChangesNothing(r: Report, reply: Option<string>)
    ensures ApplyAnalysis(r, r, reply, JsonValue(AnalysisAnswer(None, None, None, None))) == r
  {
    var r' := ApplyAnalysis(r, r, reply, JsonValue(AnalysisAnswer(None, None, None, None)));
    if reply.Some? && reply.value != "" {
      forall f ensures Get(r', f) == Get(r, f) {
        if f == Progres { assert GetList(r', ProgresList) == GetList(r, ProgresList); }
        else if f == Impacts { assert GetList(r', ImpactsList) == GetList(r, ImpactsList); }
        else if f == Defis { assert GetList(r', DefisList) == GetList(r, DefisList); }
        else if f == Recommandations { assert GetList(r', RecommandationsList) == GetList(r, RecommandationsList); }
      }
      ReportExtensional(r', r);
    }
  }

  /**
   * A list the user edits while the call is pending, and that the answer
   * leaves out, is put back to its value at request time: the edit is lost.
   */
  lemma PendingListEditIsLost(atRequest: Report, atReply: Report, reply: string, a: AnalysisAnswer, lf: ListField)
    requires reply != "" && AnswerList(a, lf).None?
    requires GetList(atReply, lf) != GetList(atRequest, lf)
    ensures GetList(ApplyAnalysis(atRequest, atReply, Some(reply), JsonValue(a)), lf) == GetList(atRequest, lf)
    ensures ApplyAnalysis(atRequest, atReply, Some(reply), JsonValue(a)) != atReply
  {
    var r' := ApplyAnalysis(atRequest, atReply, Some(reply), JsonValue(a));
    assert GetList(r', lf) == GetList(atRequest, lf);
  }

  // ---------------------------------------------------------------------
  // Cover theme picker

  datatype ThemeChoice = ThemeChoice(id: CoverTheme, caption: string)

  /** The picker's buttons, in the order they are shown. */
  const ThemeChoices: seq<ThemeChoice> := [
    ThemeChoice(Official, "Officiel AD"),
    ThemeChoice(Minimalist, "Minimal Pur"),
    ThemeChoice(Royal, "Cadre Royal"),
    ThemeChoice(Prestige, "Double Cadre"),
    ThemeChoice(Architect, "Grille Fine"),
    ThemeChoice(Vintage, "Classique"),
    ThemeChoice(Spirit, "Spirituel"),
    ThemeChoice(Celestial, "Rayonnement"),
    ThemeChoice(Eco, "Éco-Dashed"),
    ThemeChoice(Ethereal, "Fleur Douce"),
    ThemeChoice(StainedGlass, "Vitrail Léger"),
    ThemeChoice(Modern, "Lignes Pro")
  ]

  /** The themes the picker offers, in its order. */
  function ChoiceIds(): (ids: seq<CoverTheme>)
    ensures |ids| == |ThemeChoices|
  {
    seq(|ThemeChoices|, i requires 0 <= i < |ThemeChoices| => ThemeChoices[i].id)
  }

  /** The picker offers each of the twelve themes exactly once. */
  lemma ThemeChoicesComplete()
    ensures |ChoiceIds()| == 12
    ensures forall i, j :: 0 <= i < j < |ChoiceIds()| ==> ChoiceIds()[i] != ChoiceIds()[j]
    ensures forall t :: t in ChoiceIds()
  {
    var ids := ChoiceIds();
    assert ids == [Official, Minimalist, Royal, Prestige, Architect, Vintage, Spirit, Celestial, Eco, Ethereal, StainedGlass, Modern];
    forall t ensures t in ids {
      match t
      case Official => assert ids[0] == t;
      case Minimalist => assert ids[1] == t;
      case Royal => assert ids[2] == t;
      case Prestige => assert ids[3] == t;
      case Architect => assert ids[4] == t;
      case Vintage => assert ids[5] == t;
      case Spirit => assert ids[6] == t;
      case Celestial => assert ids[7] == t;
      case Eco => assert ids[8] == t;
      case Ethereal => assert ids[9] == t;
      case StainedGlass => assert ids[10] == t;
      case Modern => assert ids[11] == t;
    }
  }

  /** Clicking a theme button stores that theme's id and nothing else. */
  function PickTheme(r: Report, t: CoverTheme): (r': Report)
    ensures UnchangedExcept(r, r', CoverThemeField)
    ensures ParseTheme(r'.coverTheme) == Some(t)
  {
    ParseThemeName(t);
    SetField(r, CoverThemeField, Text(ThemeName(t)))
  }
}
