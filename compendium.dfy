/**
 * `CompendiumRAG` (compendium_rag.py): the Belgian laboratories' analysis catalogues, read from
 * JSON files, normalised into one record type, indexed by a search text in batches of fifty and
 * cited in answers. File reading, the embedding provider, the vector index's query, the chat model
 * and float formatting are foreign; the class receives them as function values.
 */
module Compendium {
  import opened Wrappers
  import opened Strings
  import opened Chunking
  import opened Store
  import opened Json

  const BatchSize: nat := 50
  const SearchCount: nat := 10
  const CitedCount: nat := 5
  const DescriptionWidth: nat := 100
  const FieldWidth: nat := 50

  const UnknownLab := "Laboratoire inconnu"
  const NothingInContext := "Désolé, je n'ai pas trouvé d'analyses correspondant à votre recherche dans le compendium belge."
  const NothingRetrieved := "Je n'ai pas trouvé d'analyses pertinentes dans le compendium belge."
  const GenerationError := "Erreur lors de la génération de la réponse: "

  /** `CompendiumAnalysis`: one catalogue entry of one laboratory. */
  datatype Analysis = Analysis(titre: string, code: string, lien: string, laboratoire: string, description: string,
                               indication: string, prelevement: string, technique: string, reference: string)

  /** A JSON file of the data directory: its base name and its top-level array, `None` when it could not be read as one. */
  datatype LabFile = LabFile(name: string, data: Option<seq<Value>>)

  /** One result of `search_analyses`: the stored record and `score = 1 - distance`. */
  datatype Found = Found(analysis: Analysis, score: real)

  /** One cited source of an answer: `{title, lab, url, code, description, prelevement, technique, score}`. */
  datatype Citation = Citation(title: string, lab: string, url: string, code: string, description: string,
                               prelevement: string, technique: string, score: real)

  /** `generate_compendium_response`'s result: `{answer, sources}`. */
  datatype Answer = Answer(answer: string, sources: seq<Citation>)

  /** `ask_compendium`'s result: `{answer, sources, query}`. */
  datatype Response = Response(answer: string, sources: seq<Citation>, query: string)

  // ---------------------------------------------------------------------------------
  // Laboratory attribution

  /** The laboratory a catalogue file belongs to, from its lower-cased name. */
  function LabName(filename: string): string {
    var f := Lower(filename);
    if Contains(f, "lhub") then "LHUB-ULB"
    else if Contains(f, "uza") then "UZA"
    else if Contains(f, "citadelle") then "CHR Citadelle"
    else if Contains(f, "chu_ulg") then "CHU ULG"
    else UnknownLab
  }

  /** The attribution rules as a table: marker, laboratory, tried in this order. */
  const LabTable: seq<(string, string)> :=
    [("lhub", "LHUB-ULB"), ("uza", "UZA"), ("citadelle", "CHR Citadelle"), ("chu_ulg", "CHU ULG")]

  /** The laboratory of the first table row whose marker occurs in `f`. */
  function FirstMatch(table: seq<(string, string)>, f: string): string {
    if |table| == 0 then UnknownLab
    else if Contains(f, table[0].0) then table[0].1
    else FirstMatch(table[1..], f)
  }

  /** The if-chain is the table read in order. */
  lemma LabNameIsFirstMatch(filename: string)
    ensures LabName(filename) == FirstMatch(LabTable, Lower(filename))
  {
    var f := Lower(filename);
    var t := LabTable;
    assert FirstMatch(t[1..][1..][1..][1..], f) == UnknownLab;
    assert FirstMatch(t[1..][1..][1..], f) == (if Contains(f, "chu_ulg") then "CHU ULG" else UnknownLab);
    assert FirstMatch(t[1..][1..], f) == (if Contains(f, "citadelle") then "CHR Citadelle" else FirstMatch(t[1..][1..][1..], f));
    assert FirstMatch(t[1..], f) == (if Contains(f, "uza") then "UZA" else FirstMatch(t[1..][1..], f));
  }

  /** The first row whose marker occurs wins, whatever later rows would say. */
  lemma {:induction false} FirstMatchAt(table: seq<(string, string)>, f: string, i: nat)
    requires i < |table| && Contains(f, table[i].0)
    requires forall j :: 0 <= j < i ==> !Contains(f, table[j].0)
    ensures FirstMatch(table, f) == table[i].1
  {
    if i > 0 {
      assert !Contains(f, table[0].0);
      FirstMatchAt(table[1..], f, i - 1);
    }
  }

  /** No marker occurs: the laboratory is unknown (and attribution never fails). */
  lemma {:induction false} FirstMatchNone(table: seq<(string, string)>, f: string)
    requires forall j :: 0 <= j < |table| ==> !Contains(f, table[j].0)
    ensures FirstMatch(table, f) == UnknownLab
  {
    if |table| > 0 {
      assert !Contains(f, table[0].0);
      FirstMatchNone(table[1..], f);
    }
  }

  /** Attribution ignores the case of the file name. */
  lemma LabNameIgnoresCase(filename: string)
    ensures LabName(Lower(filename)) == LabName(filename)
  {
    LowerIdempotent(filename);
  }

  /** Whatever the name, the result is one of the four laboratories or the unknown one. */
  lemma LabNameRange(filename: string)
    ensures LabName(filename) in ["LHUB-ULB", "UZA", "CHR Citadelle", "CHU ULG", UnknownLab]
  {
  }

  // ---------------------------------------------------------------------------------
  // Record normalisation

  /** The nested block `item[key]` when it is an object. */
  function Block(item: map<string, Value>, key: string): Option<map<string, Value>> {
    if key in item && item[key].Obj? then Some(item[key].fields) else None
  }

  /** What the `analyse` block writes into the description. */
  function AnalyseLines(item: map<string, Value>): string {
    match Block(item, "analyse")
    case Some(info) => "Service: " + Get(info, "Service") + "\n" + "Matrice: " + Get(info, "Matrice") + "\n"
    case None => ""
  }

  /** What the `pre_analytique` block writes into the sampling field. */
  function PreAnalytique(item: map<string, Value>): string {
    match Block(item, "pre_analytique")
    case Some(info) => Or(Get(info, "type d'échantillon approprié"), Get(info, "Récipient"))
    case None => ""
  }

  function Analytique(item: map<string, Value>): string {
    match Block(item, "analytique")
    case Some(info) => Get(info, "Méthode analytique")
    case None => ""
  }

  function PostAnalytique(item: map<string, Value>): string {
    match Block(item, "post_analytique")
    case Some(info) => Get(info, "Valeurs de référence")
    case None => ""
  }

  /** The text fields an object item gets: a flat key, when present, overrides its nested block. */
  function DescriptionOf(item: map<string, Value>): string {
    if "description" in item then Text(item["description"]) else AnalyseLines(item)
  }

  function IndicationOf(item: map<string, Value>): string {
    if "indication" in item then Text(item["indication"]) else ""
  }

  function PrelevementOf(item: map<string, Value>): string {
    if "types_echantillons" in item then Text(item["types_echantillons"]) else PreAnalytique(item)
  }

  function TechniqueOf(item: map<string, Value>): string {
    if "methode" in item then Text(item["methode"]) else Analytique(item)
  }

  /** The record an object item normalises to. */
  function ItemAnalysis(item: map<string, Value>, lab: string): Analysis {
    Analysis(Get(item, "titre"), Get(item, "code"), Get(item, "lien"), lab, DescriptionOf(item), IndicationOf(item),
             PrelevementOf(item), TechniqueOf(item), PostAnalytique(item))
  }

  /** The admission test `if titre and lien`. */
  predicate Admissible(item: map<string, Value>) {
    Get(item, "titre") != "" && Get(item, "lien") != ""
  }

  /** A flat key replaces whatever the nested blocks gave its field. */
  lemma FlatKeysOverride(item: map<string, Value>, lab: string, v: Value)
    ensures ItemAnalysis(item["description" := v], lab).description == Text(v)
    ensures ItemAnalysis(item["indication" := v], lab).indication == Text(v)
    ensures ItemAnalysis(item["methode" := v], lab).technique == Text(v)
    ensures ItemAnalysis(item["types_echantillons" := v], lab).prelevement == Text(v)
  {
  }

  /** The reference value comes from the `post_analytique` block only: no other key affects it. */
  lemma ReferenceOnlyFromPost(item: map<string, Value>, lab: string, key: string, v: Value)
    requires key != "post_analytique"
    ensures ItemAnalysis(item[key := v], lab).reference == ItemAnalysis(item, lab).reference
  {
    assert Block(item[key := v], "post_analytique") == Block(item, "post_analytique");
  }

  /**
   * Every optional field starts as `""` and stays so unless a key sets it: an item with none of the
   * keys that set them keeps only its title, its link and the file's laboratory. An empty item is dropped.
   */
  lemma EmptyItem(item: map<string, Value>, lab: string)
    requires "code" !in item && "description" !in item && "analyse" !in item && "indication" !in item
    requires "methode" !in item && "analytique" !in item && "types_echantillons" !in item
    requires "pre_analytique" !in item && "post_analytique" !in item
    ensures ItemAnalysis(item, lab) == Analysis(Get(item, "titre"), "", Get(item, "lien"), lab, "", "", "", "", "")
    ensures ItemAnalysis(map[], lab) == Analysis("", "", "", lab, "", "", "", "", "")
    ensures !Admissible(map[])
  {
  }

  /** A `lhub_analyses.json` item with only a title and a link is an LHUB-ULB analysis with empty details. */
  lemma TitleAndLinkOnly(t: string, l: string)
    ensures ItemAnalysis(map["titre" := Str(t), "lien" := Str(l)], LabName("lhub_analyses.json"))
              == Analysis(t, "", l, "LHUB-ULB", "", "", "", "", "")
  {
  }

  /**
   * Without a flat `types_echantillons`, a `pre_analytique` object gives the appropriate sample type,
   * or the container when that is missing or empty.
   */
  lemma SamplingFallback(item: map<string, Value>, lab: string, pre: map<string, Value>)
    requires "types_echantillons" !in item
    ensures var r := ItemAnalysis(item["pre_analytique" := Obj(pre)], lab).prelevement;
            && (Get(pre, "type d'échantillon approprié") != "" ==> r == Get(pre, "type d'échantillon approprié"))
            && (Get(pre, "type d'échantillon approprié") == "" ==> r == Get(pre, "Récipient"))
  {
  }

  /** Without a flat `description`, an `analyse` object contributes exactly its service and matrix lines. */
  lemma AnalyseDescription(item: map<string, Value>, lab: string, info: map<string, Value>)
    requires "description" !in item
    ensures ItemAnalysis(item["analyse" := Obj(info)], lab).description
              == "Service: " + Get(info, "Service") + "\n" + "Matrice: " + Get(info, "Matrice") + "\n"
  {
  }

  /** The analyses one file's items give: each object item that passes the admission test, in order. */
  function Admit(items: seq<Value>, lab: string): seq<Analysis> {
    if |items| == 0 then []
    else
      var last := items[|items| - 1];
      Admit(items[..|items| - 1], lab)
        + (if last.Obj? && Admissible(last.fields) then [ItemAnalysis(last.fields, lab)] else [])
  }

  /** Admission works item by item: the analyses of `a + b` are those of `a`, then those of `b`. */
  lemma {:induction false} AdmitConcat(a: seq<Value>, b: seq<Value>, lab: string)
    ensures Admit(a + b, lab) == Admit(a, lab) + Admit(b, lab)
    decreases |b|
  {
    if |b| > 0 {
      var k := |b| - 1;
      assert (a + b)[..|a + b| - 1] == a + b[..k];
      AdmitConcat(a, b[..k], lab);
    } else {
      assert a + b == a;
    }
  }

  /** One item yields an analysis iff it is an object with a non-empty `titre` and a non-empty `lien`. */
  lemma AdmitOne(item: Value, lab: string)
    ensures |Admit([item], lab)| == 1 <==> item.Obj? && Get(item.fields, "titre") != "" && Get(item.fields, "lien") != ""
    ensures |Admit([item], lab)| <= 1
  {
    assert [item][..0] == [];
  }

  /** Every admitted analysis has a title and a link and carries the file's laboratory. */
  lemma {:induction false} AdmitValid(items: seq<Value>, lab: string)
    ensures forall k :: 0 <= k < |Admit(items, lab)| ==>
              Admit(items, lab)[k].titre != "" && Admit(items, lab)[k].lien != "" && Admit(items, lab)[k].laboratoire == lab
    ensures |Admit(items, lab)| <= |items|
  {
    if |items| > 0 {
      AdmitValid(items[..|items| - 1], lab);
    }
  }

  /** What `load_lab_data` returns for one file: nothing when it could not be read. */
  function FileAnalyses(f: LabFile): seq<Analysis> {
    match f.data
    case None => []
    case Some(items) => Admit(items, LabName(f.name))
  }

  /** What `load_all_analyses` returns: the files' analyses, file after file. */
  function AllAnalyses(files: seq<LabFile>): seq<Analysis> {
    if |files| == 0 then [] else AllAnalyses(files[..|files| - 1]) + FileAnalyses(files[|files| - 1])
  }

  /** Loading two groups of files is loading each, in order. */
  lemma {:induction false} AllAnalysesConcat(a: seq<LabFile>, b: seq<LabFile>)
    ensures AllAnalyses(a + b) == AllAnalyses(a) + AllAnalyses(b)
    decreases |b|
  {
    if |b| > 0 {
      var k := |b| - 1;
      calc {
        AllAnalyses(a + b);
        AllAnalyses((a + b)[..|a + b| - 1]) + FileAnalyses((a + b)[|a + b| - 1]);
        { assert (a + b)[..|a + b| - 1] == a + b[..k]; assert (a + b)[|a + b| - 1] == b[k]; }
        AllAnalyses(a + b[..k]) + FileAnalyses(b[k]);
        { AllAnalysesConcat(a, b[..k]); }
        AllAnalyses(a) + AllAnalyses(b[..k]) + FileAnalyses(b[k]);
      }
    } else {
      assert a + b == a;
    }
  }

  /** Every loaded analysis, from whichever file, has a title and a link. */
  lemma {:induction false} AllAnalysesValid(files: seq<LabFile>)
    ensures forall k :: 0 <= k < |AllAnalyses(files)| ==> AllAnalyses(files)[k].titre != "" && AllAnalyses(files)[k].lien != ""
  {
    if |files| > 0 {
      var last := files[|files| - 1];
      var pre := AllAnalyses(files[..|files| - 1]);
      var add := FileAnalyses(last);
      AllAnalysesValid(files[..|files| - 1]);
      if last.data.Some? {
        AdmitValid(last.data.value, LabName(last.name));
      }
      var all: seq<Analysis> := pre + add;
      assert AllAnalyses(files) == all;
      forall k | 0 <= k < |all| ensures all[k].titre != "" && all[k].lien != "" {
        if k < |pre| {
          assert all[k] == pre[k];
        } else {
          assert all[k] == add[k - |pre|];
        }
      }
    }
  }

  // ---------------------------------------------------------------------------------
  // Search text and ids

  /** The eight candidate lines of `create_search_text`, an absent field giving `""`. */
  function Parts(a: Analysis): seq<string> {
    ["Titre: " + a.titre,
     if a.code != "" then "Code: " + a.code else "",
     "Laboratoire: " + a.laboratoire,
     if a.description != "" then "Description: " + a.description else "",
     if a.indication != "" then "Indication: " + a.indication else "",
     if a.prelevement != "" then "Prélèvement: " + a.prelevement else "",
     if a.technique != "" then "Technique: " + a.technique else "",
     if a.reference != "" then "Référence: " + a.reference else ""]
  }

  /** A part as the filter keeps it: itself when non-empty, nothing otherwise. */
  function Keep(part: string): seq<string> {
    if part != "" then [part] else []
  }

  /** `[part for part in parts if part]`. */
  function NonEmpty(parts: seq<string>): seq<string> {
    if |parts| == 0 then [] else NonEmpty(parts[..|parts| - 1]) + Keep(parts[|parts| - 1])
  }

  lemma {:induction false} NonEmptyConcat(a: seq<string>, b: seq<string>)
    ensures NonEmpty(a + b) == NonEmpty(a) + NonEmpty(b)
    decreases |b|
  {
    if |b| > 0 {
      var k := |b| - 1;
      assert (a + b)[..|a + b| - 1] == a + b[..k];
      NonEmptyConcat(a, b[..k]);
    } else {
      assert a + b == a;
    }
  }

  /** `create_search_text`: the non-empty lines joined by newlines. */
  function SearchText(a: Analysis): string {
    Join(NonEmpty(Parts(a)), "\n")
  }

  /** A labelled line that is present only when its value is non-empty. */
  function Line(prefix: string, value: string): seq<string> {
    if value == "" then [] else [prefix + value]
  }

  /**
   * The search text's lines: `Titre:` and `Laboratoire:` always, each other line exactly when its
   * field is non-empty, in this fixed order.
   */
  lemma SearchLines(a: Analysis)
    ensures NonEmpty(Parts(a)) ==
              ["Titre: " + a.titre] + Line("Code: ", a.code) + ["Laboratoire: " + a.laboratoire]
              + Line("Description: ", a.description) + Line("Indication: ", a.indication)
              + Line("Prélèvement: ", a.prelevement) + Line("Technique: ", a.technique)
              + Line("Référence: ", a.reference)
  {
    var p := Parts(a);
    NonEmptyEight(p);
    assert Keep(p[0]) == ["Titre: " + a.titre] by { assert |p[0]| > 0; }
    assert Keep(p[2]) == ["Laboratoire: " + a.laboratoire] by { assert |p[2]| > 0; }
  }

  /** The filter over eight parts, written out. */
  lemma NonEmptyEight(p: seq<string>)
    requires |p| == 8
    ensures NonEmpty(p) == Keep(p[0]) + Keep(p[1]) + Keep(p[2]) + Keep(p[3]) + Keep(p[4]) + Keep(p[5]) + Keep(p[6]) + Keep(p[7])
  {
    assert NonEmpty(p[..1]) == Keep(p[0]) by { assert p[..1][..0] == []; }
    assert NonEmpty(p[..2]) == NonEmpty(p[..1]) + Keep(p[1]) by { assert p[..2][..1] == p[..1]; }
    assert NonEmpty(p[..3]) == NonEmpty(p[..2]) + Keep(p[2]) by { assert p[..3][..2] == p[..2]; }
    assert NonEmpty(p[..4]) == NonEmpty(p[..3]) + Keep(p[3]) by { assert p[..4][..3] == p[..3]; }
    assert NonEmpty(p[..5]) == NonEmpty(p[..4]) + Keep(p[4]) by { assert p[..5][..4] == p[..4]; }
    assert NonEmpty(p[..6]) == NonEmpty(p[..5]) + Keep(p[5]) by { assert p[..6][..5] == p[..5]; }
    assert NonEmpty(p[..7]) == NonEmpty(p[..6]) + Keep(p[6]) by { assert p[..7][..6] == p[..6]; }
    assert NonEmpty(p) == NonEmpty(p[..7]) + Keep(p[7]);
  }

  /** The search text holds the title line, the laboratory line and the code line when there is a code. */
  lemma SearchTextHasKeyLines(a: Analysis)
    ensures Contains(SearchText(a), "Titre: " + a.titre)
    ensures Contains(SearchText(a), "Laboratoire: " + a.laboratoire)
    ensures a.code != "" ==> Contains(SearchText(a), "Code: " + a.code)
  {
    SearchLines(a);
    var lines := NonEmpty(Parts(a));
    JoinContainsPart(lines, "\n", 0);
    if a.code != "" {
      JoinContainsPart(lines, "\n", 1);
      JoinContainsPart(lines, "\n", 2);
    } else {
      JoinContainsPart(lines, "\n", 1);
    }
  }

  /** The build's id `f"{laboratoire}_{titre}_{i + j}"` for the analysis at global position `g`. */
  function AnalysisId(a: Analysis, g: nat): string {
    a.laboratoire + "_" + a.titre + "_" + NatToString(g)
  }

  /** The position can be read back from the id: it is what follows the last `_`. */
  lemma AnalysisIdPosition(a1: Analysis, g1: nat, a2: Analysis, g2: nat)
    requires AnalysisId(a1, g1) == AnalysisId(a2, g2)
    ensures g1 == g2
  {
    assert '_' !in NatToString(g1) && '_' !in NatToString(g2);
    SplitAtLast(a1.laboratoire + "_" + a1.titre, NatToString(g1), a2.laboratoire + "_" + a2.titre, NatToString(g2), '_');
    NatToStringInjective(g1, g2);
  }

  /** Ids are pairwise distinct for any list of analyses, repeated titles included. */
  lemma AnalysisIdsDistinct(analyses: seq<Analysis>)
    ensures IdsDistinct(analyses, AnalysisId)
  {
    forall j1, j2 | 0 <= j1 < j2 < |analyses| ensures AnalysisId(analyses[j1], j1) != AnalysisId(analyses[j2], j2) {
      if AnalysisId(analyses[j1], j1) == AnalysisId(analyses[j2], j2) {
        AnalysisIdPosition(analyses[j1], j1, analyses[j2], j2);
      }
    }
  }

  // ---------------------------------------------------------------------------------
  // Build

  function Identity(a: Analysis): Analysis { a }

  function SearchTexts(batch: seq<Analysis>): (texts: seq<string>)
    ensures |texts| == |batch| && forall j :: 0 <= j < |batch| ==> texts[j] == SearchText(batch[j])
  {
    seq(|batch|, j requires 0 <= j < |batch| => SearchText(batch[j]))
  }

  /** The ids of a batch starting at global position `i`. */
  function BatchAnalysisIds(batch: seq<Analysis>, i: nat): (ids: seq<string>)
    ensures |ids| == |batch| && forall j :: 0 <= j < |batch| ==> ids[j] == AnalysisId(batch[j], i + j)
  {
    seq(|batch|, j requires 0 <= j < |batch| => AnalysisId(batch[j], i + j))
  }

  /** What one batch of the build does to the collection built so far, and that its `add` is allowed. */
  lemma BuildStep(analyses: seq<Analysis>, b: nat, i: nat, embed: seq<string> -> seq<Vector>)
    requires ValidEmbedder(embed)
    requires i == b * BatchSize && i < |analyses|
    ensures analyses[i..Min(i + BatchSize, |analyses|)] == Batch(analyses, BatchSize, b)
    ensures var batch := Batch(analyses, BatchSize, b);
            var e := embed(SearchTexts(batch));
            var ids := BatchAnalysisIds(batch, i);
            var before := Built(analyses, BatchSize, b, SearchText, AnalysisId, Identity, embed);
            && (|e| > 0 ==>
                  |e| == |batch| && Distinct(ids)
                  && (forall j :: 0 <= j < |batch| ==> ids[j] !in before)
                  && Built(analyses, BatchSize, b + 1, SearchText, AnalysisId, Identity, embed)
                       == before + Entries(ids, e, SearchTexts(batch), batch))
            && (|e| == 0 ==> Built(analyses, BatchSize, b + 1, SearchText, AnalysisId, Identity, embed) == before)
  {
    var before := Built(analyses, BatchSize, b, SearchText, AnalysisId, Identity, embed);
    var w := Batch(analyses, BatchSize, b);
    AnalysisIdsDistinct(analyses);
    IdsDistinctPerBatch(analyses, BatchSize, AnalysisId);
    assert BatchMap(analyses, BatchSize, b, SearchText) == SearchTexts(w);
    assert BatchIds(analyses, BatchSize, b, AnalysisId) == BatchAnalysisIds(w, i);
    assert BatchMap(analyses, BatchSize, b, Identity) == w;
    BuiltFresh(analyses, BatchSize, b, SearchText, AnalysisId, Identity, embed);
    if |embed(SearchTexts(w))| == 0 {
      assert BatchEntries(analyses, BatchSize, b, SearchText, AnalysisId, Identity, embed) == map[];
      assert before + map[] == before;
    }
  }

  /**
   * After a build analysis `j` sits under the id made from its global position iff its batch of
   * fifty was embedded, with its search text and its full record as metadata; a skipped batch
   * shifts no later id.
   */
  lemma BuildStoresAnalyses(analyses: seq<Analysis>, embed: seq<string> -> seq<Vector>, j: nat)
    requires ValidEmbedder(embed) && j < |analyses|
    ensures var all := Built(analyses, BatchSize, RangeCount(|analyses|, BatchSize), SearchText, AnalysisId, Identity, embed);
            && (AnalysisId(analyses[j], j) in all <==> BatchOk(analyses, BatchSize, j / BatchSize, SearchText, embed))
            && (AnalysisId(analyses[j], j) in all ==>
                  all[AnalysisId(analyses[j], j)].document == SearchText(analyses[j])
                  && all[AnalysisId(analyses[j], j)].metadata == analyses[j])
  {
    AnalysisIdsDistinct(analyses);
    BuiltItem(analyses, BatchSize, SearchText, AnalysisId, Identity, embed, j);
  }

  /** After a build nothing is stored but the ids of the analyses, one per global position. */
  lemma BuildStoresNothingElse(analyses: seq<Analysis>, embed: seq<string> -> seq<Vector>)
    requires ValidEmbedder(embed)
    ensures forall key :: key in Built(analyses, BatchSize, RangeCount(|analyses|, BatchSize), SearchText, AnalysisId, Identity, embed) ==>
              exists p :: 0 <= p < |analyses| && AnalysisId(analyses[p], p) == key
  {
    var all := Built(analyses, BatchSize, RangeCount(|analyses|, BatchSize), SearchText, AnalysisId, Identity, embed);
    AnalysisIdsDistinct(analyses);
    forall key | key in all ensures exists p :: 0 <= p < |analyses| && AnalysisId(analyses[p], p) == key {
      var p := BuiltKeyOrigin(analyses, BatchSize, SearchText, AnalysisId, Identity, embed, key);
      assert AnalysisId(analyses[p], p) == key;
    }
  }

  /** No record without a title or a link reaches the built collection, whatever the embeddings did. */
  lemma BuiltAdmitsOnlyValid(files: seq<LabFile>, embed: seq<string> -> seq<Vector>)
    requires ValidEmbedder(embed)
    ensures var all := AllAnalyses(files);
            forall key :: key in Built(all, BatchSize, RangeCount(|all|, BatchSize), SearchText, AnalysisId, Identity, embed) ==>
              var e := Built(all, BatchSize, RangeCount(|all|, BatchSize), SearchText, AnalysisId, Identity, embed)[key];
              e.metadata.titre != "" && e.metadata.lien != ""
  {
    var all := AllAnalyses(files);
    var built := Built(all, BatchSize, RangeCount(|all|, BatchSize), SearchText, AnalysisId, Identity, embed);
    AllAnalysesValid(files);
    AnalysisIdsDistinct(all);
    forall key | key in built ensures built[key].metadata.titre != "" && built[key].metadata.lien != "" {
      var p := BuiltKeyOrigin(all, BatchSize, SearchText, AnalysisId, Identity, embed, key);
      BuildStoresAnalyses(all, embed, p);
    }
  }

  // ---------------------------------------------------------------------------------
  // Answers

  /** `s[:n] + "..."` when `s` is longer than `n`, else `s`. */
  function Truncate(s: string, n: nat): string {
    if |s| > n then s[..n] + "..." else s
  }

  /** A cut field keeps its first `n` characters and is at most three longer. */
  lemma TruncateShape(s: string, n: nat)
    ensures |Truncate(s, n)| <= n + 3
    ensures |Truncate(s, n)| <= |s| + 3
    ensures Truncate(s, n)[..Min(|s|, n)] == s[..Min(|s|, n)]
    ensures |s| <= n ==> Truncate(s, n) == s
  {
  }

  /** A found analysis is the record of some stored entry. */
  ghost predicate StoredAnalysis(entries: map<string, Entry<Analysis>>, f: Found) {
    exists key :: key in entries && entries[key].metadata == f.analysis
  }

  /** The cited title: `titre`, followed by `" (code)"` exactly when there is a code. */
  function CitationTitle(a: Analysis): string {
    a.titre + (if a.code != "" then " (" + a.code + ")" else "")
  }

  /** The citation of one found analysis. */
  function Cite(f: Found, round3: real -> real): Citation {
    var a := f.analysis;
    Citation(CitationTitle(a), a.laboratoire, a.lien, a.code, Truncate(a.description, DescriptionWidth),
             Truncate(a.prelevement, FieldWidth), Truncate(a.technique, FieldWidth), round3(f.score))
  }

  /** The cited title starts with the analysis' title, and is exactly it when there is no code. */
  lemma CitationTitleShape(a: Analysis)
    ensures StartsWith(CitationTitle(a), a.titre)
    ensures a.code == "" <==> CitationTitle(a) == a.titre
  {
    if a.code != "" {
      assert |CitationTitle(a)| > |a.titre|;
    }
  }

  /** One context block for the analysis numbered `k` (from 1): eleven lines, the score formatted by `format3`. */
  function ContextBlock(k: nat, f: Found, format3: real -> string): string {
    var a := f.analysis;
    Join(["=== ANALYSE " + NatToString(k) + " ===",
          "Titre: " + a.titre, "Laboratoire: " + a.laboratoire, "Code: " + a.code,
          "Lien direct: " + a.lien, "Description: " + a.description,
          "Indication clinique: " + a.indication, "Type de prélèvement: " + a.prelevement,
          "Technique utilisée: " + a.technique, "Valeurs de référence: " + a.reference,
          "Score de pertinence: " + format3(f.score)], "\n")
  }

  /** The context handed to the chat model: the first five analyses' blocks, joined by blank lines. */
  function ContextText(found: seq<Found>, format3: real -> string): string {
    var shown := found[..Min(|found|, CitedCount)];
    Join(seq(|shown|, k requires 0 <= k < |shown| => ContextBlock(k + 1, shown[k], format3)), "\n\n")
  }

  /** Each of the first five analyses reaches the chat model, numbered from one. */
  lemma ContextHasFirstFive(found: seq<Found>, format3: real -> string, k: nat)
    requires k < |found| && k < CitedCount
    ensures Contains(ContextText(found, format3), ContextBlock(k + 1, found[k], format3))
  {
    var shown := found[..Min(|found|, CitedCount)];
    var blocks := seq(|shown|, k requires 0 <= k < |shown| => ContextBlock(k + 1, shown[k], format3));
    assert shown[k] == found[k];
    assert blocks[k] == ContextBlock(k + 1, found[k], format3);
    JoinContainsPart(blocks, "\n\n", k);
  }

  /** The catalogue system with its collection and its foreign services. */
  class CompendiumRag {
    var collection: Collection<Analysis>
    /** `get_embeddings`: one vector per text, or `[]` when the provider call failed. */
    const embed: seq<string> -> seq<Vector>
    /** The index's `query(query_embeddings, n_results)`: the hits nearest first, `None` when it raised. */
    const nearest: (map<string, Entry<Analysis>>, Vector, nat) -> Option<seq<Hit<Analysis>>>
    /** The chat completion for a question and its context: the answer, or the error's message. */
    const complete: (string, string) -> Result<string, string>
    /** `round(x, 3)` and `f"{x:.3f}"`. */
    const round3: real -> real
    const format3: real -> string

    constructor (collection: Collection<Analysis>, embed: seq<string> -> seq<Vector>,
                 nearest: (map<string, Entry<Analysis>>, Vector, nat) -> Option<seq<Hit<Analysis>>>,
                 complete: (string, string) -> Result<string, string>, round3: real -> real, format3: real -> string)
      ensures this.collection == collection && this.embed == embed && this.nearest == nearest
      ensures this.complete == complete && this.round3 == round3 && this.format3 == format3
    {
      this.collection := collection;
      this.embed := embed;
      this.nearest := nearest;
      this.complete := complete;
      this.round3 := round3;
      this.format3 := format3;
    }

    /** The nested blocks of one item, read before any flat key: `analyse`, `pre_analytique`, `analytique`, `post_analytique`. */
    method NestedFields(item: map<string, Value>) returns (description: string, prelevement: string, technique: string, reference: string)
      ensures description == AnalyseLines(item) && prelevement == PreAnalytique(item)
      ensures technique == Analytique(item) && reference == PostAnalytique(item)
    {
      description, prelevement, technique, reference := "", "", "", "";
      if "analyse" in item {
        var info := item["analyse"];
        if info.Obj? {
          description := description + "Service: " + Get(info.fields, "Service") + "\n";
          description := description + "Matrice: " + Get(info.fields, "Matrice") + "\n";
        }
      }
      if "pre_analytique" in item {
        var info := item["pre_analytique"];
        if info.Obj? {
          prelevement := Or(Get(info.fields, "type d'échantillon approprié"), Get(info.fields, "Récipient"));
        }
      }
      if "analytique" in item {
        var info := item["analytique"];
        if info.Obj? {
          technique := Get(info.fields, "Méthode analytique");
        }
      }
      if "post_analytique" in item {
        var info := item["post_analytique"];
        if info.Obj? {
          reference := Get(info.fields, "Valeurs de référence");
        }
      }
    }

    /**
     * The per-item part of `load_lab_data`: nested blocks are read first, flat keys then overwrite,
     * and the item is kept only with a title and a link.
     */
    method NormaliseItem(item: map<string, Value>, lab: string) returns (r: Option<Analysis>)
      ensures r.Some? <==> Get(item, "titre") != "" && Get(item, "lien") != ""
      ensures r.Some? ==> r.value == ItemAnalysis(item, lab)
    {
      var titre := Get(item, "titre");
      var code := Get(item, "code");
      var lien := Get(item, "lien");
      var description, prelevement, technique, reference := NestedFields(item);
      var indication := "";
      if "description" in item {
        description := Text(item["description"]);
      }
      assert description == DescriptionOf(item);
      if "indication" in item {
        indication := Text(item["indication"]);
      }
      assert indication == IndicationOf(item);
      if "methode" in item {
        technique := Text(item["methode"]);
      }
      assert technique == TechniqueOf(item);
      if "types_echantillons" in item {
        prelevement := Text(item["types_echantillons"]);
      }
      assert prelevement == PrelevementOf(item);
      if titre != "" && lien != "" {
        r := Some(Analysis(titre, code, lien, lab, description, indication, prelevement, technique, reference));
      } else {
        r := None;
      }
    }

    /** `load_lab_data`: the file's admitted items, in order, attributed to the file's laboratory. */
    method LoadLabData(f: LabFile) returns (analyses: seq<Analysis>)
      ensures analyses == FileAnalyses(f)
    {
      analyses := [];
      if f.data.None? {
        return;
      }
      var items := f.data.value;
      var lab := LabName(f.name);
      var n := 0;
      while n < |items|
        invariant 0 <= n <= |items|
        invariant analyses == Admit(items[..n], lab)
      {
        var item := items[n];
        assert items[..n + 1][..n] == items[..n];
        if item.Obj? {
          var r := NormaliseItem(item.fields, lab);
          if r.Some? {
            analyses := analyses + [r.value];
          }
        }
        n := n + 1;
      }
      assert items[..n] == items;
    }

    /** `load_all_analyses`: every file's analyses, file after file. */
    method LoadAllAnalyses(files: seq<LabFile>) returns (analyses: seq<Analysis>)
      ensures analyses == AllAnalyses(files)
    {
      analyses := [];
      var n := 0;
      while n < |files|
        invariant 0 <= n <= |files|
        invariant analyses == AllAnalyses(files[..n])
      {
        assert files[..n + 1][..n] == files[..n];
        var labAnalyses := LoadLabData(files[n]);
        analyses := analyses + labAnalyses;
        n := n + 1;
      }
      assert files[..n] == files;
    }

    /**
     * `build_database`: no analyses leaves the collection alone; otherwise a fresh collection receives,
     * fifty at a time, every batch whose embedding call succeeded (see `BuildStoresAnalyses`).
     */
    method BuildDatabase(files: seq<LabFile>)
      requires ValidEmbedder(embed)
      modifies this
      ensures AllAnalyses(files) == [] ==> collection == old(collection)
      ensures var all := AllAnalyses(files);
              all != [] ==>
                fresh(collection)
                && collection.entries == Built(all, BatchSize, RangeCount(|all|, BatchSize), SearchText, AnalysisId, Identity, embed)
    {
      var analyses := LoadAllAnalyses(files);
      if |analyses| == 0 {
        return;
      }
      IndexAnalyses(analyses);
    }

    /** The part of `build_database` after loading: a new collection, filled batch by batch. */
    method IndexAnalyses(analyses: seq<Analysis>)
      requires ValidEmbedder(embed) && |analyses| > 0
      modifies this
      ensures fresh(collection)
      ensures collection.entries == Built(analyses, BatchSize, RangeCount(|analyses|, BatchSize), SearchText, AnalysisId, Identity, embed)
    {
      collection := new Collection();
      var i := 0;
      var b := 0;
      while i < |analyses|
        invariant i == b * BatchSize
        invariant b == 0 || (b - 1) * BatchSize < |analyses|
        invariant fresh(collection)
        invariant collection.entries == Built(analyses, BatchSize, b, SearchText, AnalysisId, Identity, embed)
        decreases |analyses| - i
      {
        AddBatch(analyses, b, i);
        assert (b + 1) * BatchSize == i + BatchSize;
        b := b + 1;
        i := i + BatchSize;
      }
      RangeCountIsCeiling(|analyses|, BatchSize, b);
    }

    /** One turn of the build loop: embed batch `b`, starting at analysis `i`, and add it when that succeeded. */
    method AddBatch(analyses: seq<Analysis>, b: nat, i: nat)
      requires ValidEmbedder(embed)
      requires i == b * BatchSize && i < |analyses|
      requires collection.entries == Built(analyses, BatchSize, b, SearchText, AnalysisId, Identity, embed)
      modifies collection
      ensures collection.entries == Built(analyses, BatchSize, b + 1, SearchText, AnalysisId, Identity, embed)
    {
      var batch := analyses[i..Min(i + BatchSize, |analyses|)];
      BuildStep(analyses, b, i, embed);
      var texts := SearchTexts(batch);
      var embeddings := embed(texts);
      if |embeddings| > 0 {
        collection.Add(BatchAnalysisIds(batch, i), embeddings, texts, batch);
      }
    }

    /** What `search_analyses` returns for a query. */
    function SearchResult(query: string, n: nat): seq<Found>
      reads this, collection
    {
      var e := embed([query]);
      if |e| == 0 then []
      else match nearest(collection.entries, e[0], n)
        case None => []
        case Some(hits) => seq(|hits|, i requires 0 <= i < |hits| => Found(hits[i].metadata, 1.0 - hits[i].distance))
    }

    /**
     * `search_analyses`: one result per hit, in the index's order, carrying the stored record and
     * `score = 1 - distance`; a failed embedding or a failed query gives `[]`.
     */
    method SearchAnalyses(query: string, n: nat) returns (found: seq<Found>)
      ensures |embed([query])| == 0 ==> found == []
      ensures |embed([query])| > 0 && nearest(collection.entries, embed([query])[0], n).None? ==> found == []
      ensures |embed([query])| > 0 && nearest(collection.entries, embed([query])[0], n).Some? ==>
                var hits := nearest(collection.entries, embed([query])[0], n).value;
                |found| == |hits|
                && forall i :: 0 <= i < |hits| ==>
                     found[i].analysis == hits[i].metadata && found[i].score == 1.0 - hits[i].distance
      ensures found == SearchResult(query, n)
      ensures ValidIndex(nearest) ==>
                |found| <= n
                && forall i :: 0 <= i < |found| ==> StoredAnalysis(collection.entries, found[i])
    {
      var e := embed([query]);
      if |e| == 0 {
        return [];
      }
      var results := nearest(collection.entries, e[0], n);
      if results.None? {
        return [];
      }
      var hits := results.value;
      found := [];
      var i := 0;
      while i < |hits|
        invariant 0 <= i <= |hits|
        invariant found == seq(i, k requires 0 <= k < i => Found(hits[k].metadata, 1.0 - hits[k].distance))
      {
        found := found + [Found(hits[i].metadata, 1.0 - hits[i].distance)];
        i := i + 1;
      }
      if ValidIndex(nearest) {
        assert |hits| <= n;
        forall k | 0 <= k < |found| ensures StoredAnalysis(collection.entries, found[k]) {
          var key := HitStored(nearest, collection.entries, e[0], n, k);
          assert found[k].analysis == hits[k].metadata;
        }
      }
    }

    /** What `generate_compendium_response` returns for a question and its found analyses. */
    function AnswerFor(query: string, found: seq<Found>): Answer {
      if found == [] then Answer(NothingInContext, [])
      else match complete(query, ContextText(found, format3))
        case Success(answer) =>
          var shown := found[..Min(|found|, CitedCount)];
          Answer(answer, seq(|shown|, k requires 0 <= k < |shown| => Cite(shown[k], round3)))
        case Failure(message) => Answer(GenerationError + message, [])
    }

    /**
     * `generate_compendium_response`: nothing found gives the fixed apology without asking the model;
     * an answer cites the first five analyses, in order, titled with their code when they have one and
     * with description, sampling and technique cut to 100, 50 and 50 characters; a failed generation
     * gives the error message and no sources.
     */
    method GenerateResponse(query: string, found: seq<Found>) returns (result: Answer)
      ensures found == [] ==> result == Answer(NothingInContext, [])
      ensures found != [] && complete(query, ContextText(found, format3)).Success? ==>
                result.answer == complete(query, ContextText(found, format3)).value
                && |result.sources| == Min(|found|, CitedCount)
                && forall k :: 0 <= k < |result.sources| ==>
                     var a := found[k].analysis;
                     result.sources[k].title == CitationTitle(a)
                     && result.sources[k].lab == a.laboratoire && result.sources[k].url == a.lien
                     && result.sources[k].code == a.code
                     && result.sources[k].description == Truncate(a.description, DescriptionWidth)
                     && result.sources[k].prelevement == Truncate(a.prelevement, FieldWidth)
                     && result.sources[k].technique == Truncate(a.technique, FieldWidth)
                     && result.sources[k].score == round3(found[k].score)
      ensures found != [] && complete(query, ContextText(found, format3)).Failure? ==>
                result == Answer(GenerationError + complete(query, ContextText(found, format3)).error, [])
      ensures result == AnswerFor(query, found)
    {
      if |found| == 0 {
        return Answer(NothingInContext, []);
      }
      var contextText := ContextText(found, format3);
      var response := complete(query, contextText);
      if response.Failure? {
        return Answer(GenerationError + response.error, []);
      }
      var shown := found[..Min(|found|, CitedCount)];
      var sources := [];
      var i := 0;
      while i < |shown|
        invariant 0 <= i <= |shown|
        invariant sources == seq(i, k requires 0 <= k < i => Cite(shown[k], round3))
      {
        var a := shown[i].analysis;
        var title := a.titre;
        if a.code != "" {
          title := title + " (" + a.code + ")";
        }
        assert title == CitationTitle(a);
        sources := sources + [Citation(title, a.laboratoire, a.lien, a.code, Truncate(a.description, DescriptionWidth),
                                       Truncate(a.prelevement, FieldWidth), Truncate(a.technique, FieldWidth),
                                       round3(shown[i].score))];
        i := i + 1;
      }
      result := Answer(response.value, sources);
    }

    /**
     * `ask_compendium`: the query is echoed; nothing found gives the fixed answer and no sources;
     * otherwise the answer is `generate_compendium_response`'s for the ten nearest analyses.
     */
    method AskCompendium(query: string) returns (r: Response)
      ensures r.query == query
      ensures SearchResult(query, SearchCount) == [] ==> r == Response(NothingRetrieved, [], query)
      ensures ValidIndex(nearest) && collection.entries == map[] ==> r == Response(NothingRetrieved, [], query)
      ensures SearchResult(query, SearchCount) != [] ==>
                r.answer == AnswerFor(query, SearchResult(query, SearchCount)).answer
                && r.sources == AnswerFor(query, SearchResult(query, SearchCount)).sources
    {
      if ValidIndex(nearest) && collection.entries == map[] && |embed([query])| > 0 {
        EmptyIndex(nearest, embed([query])[0], SearchCount);
      }
      var relevant := SearchAnalyses(query, SearchCount);
      if |relevant| == 0 {
        return Response(NothingRetrieved, [], query);
      }
      var result := GenerateResponse(query, relevant);
      r := Response(result.answer, result.sources, query);
    }
  }
}
