/** The annotation records returned by the variant-effect service and the twelve
    table columns the dashboard derives from them (`headers`). */
module Annotation {
  import opened Wrappers
  import opened Text

  /** A JavaScript primitive a record's property can hold.  Numbers are
      modelled as integers. */
  datatype Scalar = Null | Bool(b: bool) | Num(n: int) | Str(s: string)

  /** A property read: `None` is `undefined` (the property is absent). */
  type Field = Option<Scalar>

  /** One entry of `transcript_consequences`. */
  datatype TranscriptConsequence = TranscriptConsequence(
    impact: Field,
    geneSymbol: Field,
    featureType: Field,
    transcriptId: Field,
    biotype: Field,
    exon: Field,
    hgvsc: Field)

  /** One entry of `colocated_variants`. */
  datatype ColocatedVariant = ColocatedVariant(phenotypeOrDisease: Field)

  /** The properties of one annotation result that the table reads.  A list
      that is absent or `null` is `None`; optional chaining treats both alike. */
  datatype AnnotationResult = AnnotationResult(
    input: Field,
    seqRegionName: Field,
    start: Field,
    end: Field,
    alleleString: Field,
    mostSevereConsequence: Field,
    transcriptConsequences: Option<seq<TranscriptConsequence>>,
    colocatedVariants: Option<seq<ColocatedVariant>>)

  /** JavaScript truthiness of a property read. */
  predicate Truthy(v: Field)
  {
    match v
    case None => false
    case Some(Null) => false
    case Some(Bool(b)) => b
    case Some(Num(n)) => n != 0
    case Some(Str(s)) => s != ""
  }

  /** `v || "-"`. */
  function OrDash(v: Field): (r: Scalar)
    ensures Truthy(Some(r))
    ensures Truthy(v) ==> r == v.value
    ensures !Truthy(v) ==> r == Str("-")
  {
    if Truthy(v) then v.value else Str("-")
  }

  /** `${v}` inside a template literal. */
  function TemplateText(v: Field): string
  {
    match v
    case None => "undefined"
    case Some(Null) => "null"
    case Some(Bool(b)) => if b then "true" else "false"
    case Some(Num(n)) => IntToString(n)
    case Some(Str(s)) => s
  }

  /** The property of a transcript consequence a column reads. */
  datatype TranscriptKey = Impact | GeneSymbol | FeatureType | TranscriptId | Biotype | Exon | Hgvsc

  function TranscriptField(tc: TranscriptConsequence, key: TranscriptKey): Field
  {
    match key
    case Impact => tc.impact
    case GeneSymbol => tc.geneSymbol
    case FeatureType => tc.featureType
    case TranscriptId => tc.transcriptId
    case Biotype => tc.biotype
    case Exon => tc.exon
    case Hgvsc => tc.hgvsc
  }

  /** `list?.[i]`: the element at `i` of a list that may be absent. */
  function At<T>(list: Option<seq<T>>, i: nat): Option<T>
  {
    if list.Some? && i < |list.value| then Some(list.value[i]) else None
  }

  /** `data.transcript_consequences?.[0]?.<key> || "-"`. */
  function TranscriptColumn(d: AnnotationResult, key: TranscriptKey): Scalar
  {
    match At(d.transcriptConsequences, 0)
    case None => Str("-")
    case Some(tc) => OrDash(TranscriptField(tc, key))
  }

  /** `data.colocated_variants?.[1]?.phenotype_or_disease || "-"`: the second
      colocated variant, as the dashboard reads it. */
  function PhenotypesColumn(d: AnnotationResult): Scalar
  {
    match At(d.colocatedVariants, 1)
    case None => Str("-")
    case Some(cv) => OrDash(cv.phenotypeOrDisease)
  }

  /** `${data.seq_region_name}:${data.start}-${data.end}`, without a fallback. */
  function LocationColumn(d: AnnotationResult): Scalar
  {
    Str(TemplateText(d.seqRegionName) + ":" + TemplateText(d.start) + "-" + TemplateText(d.end))
  }

  /** The twelve table columns. */
  datatype Column =
    | UploadedVariation | Location | Allele | Consequence
    | ImpactColumn | Symbol | FeatureTypeColumn | Feature | BiotypeColumn | ExonColumn | HgvscColumn
    | Phenotypes

  /** The columns in display order. */
  const COLUMNS: seq<Column> := [
    UploadedVariation, Location, Allele, Consequence,
    ImpactColumn, Symbol, FeatureTypeColumn, Feature, BiotypeColumn, ExonColumn, HgvscColumn,
    Phenotypes]

  /** The header text of a column, also its React key. */
  function Label(c: Column): string
  {
    match c
    case UploadedVariation => "#Uploaded_variation"
    case Location => "Location"
    case Allele => "Allele"
    case Consequence => "Consequence"
    case ImpactColumn => "IMPACT"
    case Symbol => "SYMBOL"
    case FeatureTypeColumn => "Feature_Type"
    case Feature => "Feature"
    case BiotypeColumn => "BIOTYPE"
    case ExonColumn => "EXON"
    case HgvscColumn => "HGVSc"
    case Phenotypes => "PHENOTYPES"
  }

  /** The value a table cell shows for column `c` of result `d`: a string key
      is read and falls back to `"-"`, a function key is applied. */
  function Cell(c: Column, d: AnnotationResult): Scalar
  {
    match c
    case UploadedVariation => OrDash(d.input)
    case Location => LocationColumn(d)
    case Allele => OrDash(d.alleleString)
    case Consequence => OrDash(d.mostSevereConsequence)
    case ImpactColumn => TranscriptColumn(d, Impact)
    case Symbol => TranscriptColumn(d, GeneSymbol)
    case FeatureTypeColumn => TranscriptColumn(d, FeatureType)
    case Feature => TranscriptColumn(d, TranscriptId)
    case BiotypeColumn => TranscriptColumn(d, Biotype)
    case ExonColumn => TranscriptColumn(d, Exon)
    case HgvscColumn => TranscriptColumn(d, Hgvsc)
    case Phenotypes => PhenotypesColumn(d)
  }

  /** One table row: the cells of `d` in column order. */
  function Row(d: AnnotationResult): (r: seq<Scalar>)
    ensures |r| == |COLUMNS|
    ensures forall k :: 0 <= k < |r| ==> r[k] == Cell(COLUMNS[k], d)
  {
    seq(|COLUMNS|, k requires 0 <= k < |COLUMNS| => Cell(COLUMNS[k], d))
  }

  /** The twelve labels are distinct, so they serve as React keys. */
  lemma LabelsDistinct()
    ensures |COLUMNS| == 12
    ensures forall i, j :: 0 <= i < j < |COLUMNS| ==> Label(COLUMNS[i]) != Label(COLUMNS[j])
  {
  }

  /** Every cell value is truthy: no column yields an empty string, 0, false, null or undefined. */
  lemma CellNeverBlank(c: Column, d: AnnotationResult)
    ensures Truthy(Some(Cell(c, d)))
  {
  }

  /** The Location column has no fallback: it always shows the three properties
      around ':' and '-', "undefined" standing in for a missing one. */
  lemma LocationShape(d: AnnotationResult)
    ensures LocationColumn(d).Str?
    ensures var s := LocationColumn(d).s;
            var k := |TemplateText(d.seqRegionName)|;
            k < |s| && s[k] == ':' && s[..k] == TemplateText(d.seqRegionName) &&
            s[k + 1..] == TemplateText(d.start) + "-" + TemplateText(d.end)
    ensures d.seqRegionName.None? && d.start.None? && d.end.None? ==>
            LocationColumn(d) == Str("undefined" + ":" + "undefined" + "-" + "undefined")
  {
  }

  /** A transcript column shows the property of the first transcript consequence
      when there is one and the property is truthy, and "-" otherwise. */
  lemma TranscriptColumnSpec(d: AnnotationResult, key: TranscriptKey)
    ensures TranscriptColumn(d, key) != Str("-") ==>
            d.transcriptConsequences.Some? && |d.transcriptConsequences.value| > 0 &&
            Some(TranscriptColumn(d, key)) == TranscriptField(d.transcriptConsequences.value[0], key)
    ensures (d.transcriptConsequences.None? || |d.transcriptConsequences.value| == 0) ==>
            TranscriptColumn(d, key) == Str("-")
    ensures d.transcriptConsequences.Some? && |d.transcriptConsequences.value| > 0 ==>
            (TranscriptColumn(d, key) == Str("-") <==>
             !Truthy(TranscriptField(d.transcriptConsequences.value[0], key)) ||
             TranscriptField(d.transcriptConsequences.value[0], key) == Some(Str("-")))
  {
  }

  /** Only the first transcript consequence matters to the transcript columns. */
  lemma TranscriptColumnReadsFirstOnly(d: AnnotationResult, d': AnnotationResult, key: TranscriptKey)
    requires d.transcriptConsequences.Some? && d'.transcriptConsequences.Some?
    requires |d.transcriptConsequences.value| > 0 && |d'.transcriptConsequences.value| > 0
    requires d.transcriptConsequences.value[0] == d'.transcriptConsequences.value[0]
    ensures TranscriptColumn(d, key) == TranscriptColumn(d', key)
  {
  }

  /** The PHENOTYPES column reads the second colocated variant: the first never
      shows, and a result with fewer than two colocated variants shows "-". */
  lemma PhenotypesReadsSecondEntry(d: AnnotationResult)
    ensures d.colocatedVariants.None? || |d.colocatedVariants.value| < 2 ==>
            PhenotypesColumn(d) == Str("-")
    ensures d.colocatedVariants.Some? && |d.colocatedVariants.value| >= 2 ==>
            PhenotypesColumn(d) == OrDash(d.colocatedVariants.value[1].phenotypeOrDisease)
  {
  }

  /** Changing the first colocated variant never changes the PHENOTYPES column. */
  lemma PhenotypesIgnoresFirstEntry(d: AnnotationResult, cv: ColocatedVariant)
    requires d.colocatedVariants.Some? && |d.colocatedVariants.value| > 0
    ensures PhenotypesColumn(d) ==
            PhenotypesColumn(d.(colocatedVariants := Some(d.colocatedVariants.value[0 := cv])))
  {
  }
}
