/** The VCF line extractor (`parseVCFToJson`): turns the text of an uploaded
    VCF file into the variant descriptors sent to the annotation service. */
module Vcf {
  import opened Seqs
  import opened Text

  /** Only the first eight tab-separated fields of a record are kept. */
  const MAX_FIELDS := 8

  /** `line.startsWith("#")`: a meta-information or header line. */
  predicate IsComment(line: string)
  {
    StartsWith(line, '#')
  }

  /** `line.split("\t")`. */
  function Fields(line: string): seq<string>
  {
    Split(line, '\t')
  }

  /** A line that contributes a descriptor. */
  predicate IsRecord(line: string)
  {
    !IsComment(line) && |Fields(line)| > 1
  }

  /** `columns.slice(0, 8).join(" ")`. */
  function Descriptor(line: string): string
  {
    var columns := Fields(line);
    Join(columns[..Min(MAX_FIELDS, |columns|)], ' ')
  }

  /** The descriptors of `lines`, in line order; written as the `forEach`
      pushes them, one line at a time from the first. */
  function ExtractLines(lines: seq<string>): seq<string>
    decreases |lines|
  {
    if |lines| == 0 then []
    else
      var line := lines[|lines| - 1];
      ExtractLines(lines[..|lines| - 1]) + (if IsRecord(line) then [Descriptor(line)] else [])
  }

  /** The `variants` array returned by `parseVCFToJson(vcfContent)`. */
  function Extract(vcfContent: string): seq<string>
  {
    ExtractLines(Split(vcfContent, '\n'))
  }

  /** `parseVCFToJson`: the `forEach` over the lines, pushing each record's descriptor. */
  method ParseVcfToJson(vcfContent: string) returns (variants: seq<string>)
    ensures variants == Extract(vcfContent)
  {
    var lines := Split(vcfContent, '\n');
    variants := [];
    var i := 0;
    while i < |lines|
      invariant 0 <= i <= |lines|
      invariant variants == ExtractLines(lines[..i])
    {
      var line := lines[i];
      assert lines[..i + 1][..i] == lines[..i];
      if !StartsWith(line, '#') {
        var columns := Split(line, '\t');
        if |columns| > 1 {
          var variant := Join(columns[..Min(MAX_FIELDS, |columns|)], ' ');
          variants := variants + [variant];
        }
      }
      i := i + 1;
    }
    assert lines[..i] == lines;
  }

  /** Extraction is line-by-line: the descriptors of two consecutive blocks of
      lines are those of the first block followed by those of the second. */
  lemma {:induction false} ExtractLinesAppend(a: seq<string>, b: seq<string>)
    ensures ExtractLines(a + b) == ExtractLines(a) + ExtractLines(b)
    decreases |b|
  {
    if |b| == 0 {
      assert a + b == a;
    } else {
      var b' := b[..|b| - 1];
      assert (a + b)[..|a + b| - 1] == a + b';
      assert (a + b)[|a + b| - 1] == b[|b| - 1];
      ExtractLinesAppend(a, b');
    }
  }

  /** One line yields one descriptor if it is a record and none otherwise. */
  lemma ExtractLine(line: string)
    ensures ExtractLines([line]) == if IsRecord(line) then [Descriptor(line)] else []
  {
  }

  /** Every descriptor comes from a record line of the input, and every record
      line's descriptor is among the output. */
  lemma {:induction false} ExtractLinesMember(lines: seq<string>, d: string)
    ensures d in ExtractLines(lines) <==>
            exists k :: 0 <= k < |lines| && IsRecord(lines[k]) && Descriptor(lines[k]) == d
    decreases |lines|
  {
    if |lines| > 0 {
      var init := lines[..|lines| - 1];
      ExtractLinesMember(init, d);
      if exists k :: 0 <= k < |lines| && IsRecord(lines[k]) && Descriptor(lines[k]) == d {
        var k :| 0 <= k < |lines| && IsRecord(lines[k]) && Descriptor(lines[k]) == d;
        if k < |lines| - 1 {
          assert init[k] == lines[k];
        }
      }
      if exists k :: 0 <= k < |init| && IsRecord(init[k]) && Descriptor(init[k]) == d {
        var k :| 0 <= k < |init| && IsRecord(init[k]) && Descriptor(init[k]) == d;
        assert lines[k] == init[k];
      }
    }
  }

  /** A line counts as a record exactly when it is not a comment and holds a tab. */
  lemma RecordIffTab(line: string)
    ensures IsRecord(line) <==> !StartsWith(line, '#') && '\t' in line
  {
    SplitMoreThanOne(line, '\t');
  }

  /** A descriptor holds exactly the first min(8, n) fields of its line: when no
      field contains a space, splitting the descriptor on spaces gives them back,
      and fields nine and later are gone. */
  lemma DescriptorFields(line: string)
    requires forall k :: 0 <= k < |Fields(line)| ==> ' ' !in Fields(line)[k]
    ensures Split(Descriptor(line), ' ') == Fields(line)[..Min(MAX_FIELDS, |Fields(line)|)]
    ensures |Split(Descriptor(line), ' ')| == Min(MAX_FIELDS, |Fields(line)|)
  {
    var columns := Fields(line);
    var kept := columns[..Min(MAX_FIELDS, |columns|)];
    assert forall k :: 0 <= k < |kept| ==> kept[k] == columns[k];
    SplitJoin(kept, ' ');
  }

  /** The descriptor of a record line built from the fields `f`. */
  lemma DescriptorOfFields(line: string, f: seq<string>)
    requires 1 < |f| <= MAX_FIELDS && line == Join(f, '\t')
    requires forall k :: 0 <= k < |f| ==> '\t' !in f[k]
    ensures IsRecord(line) <==> !IsComment(line)
    ensures Descriptor(line) == Join(f, ' ')
  {
    SplitJoin(f, '\t');
    assert f[..Min(MAX_FIELDS, |f|)] == f;
  }

  /** The line whose fields are `f` yields the descriptor of its first eight fields. */
  lemma RecordLine(line: string, f: seq<string>)
    requires line == Join(f, '\t') && |f| > 1 && !IsComment(line)
    requires forall k :: 0 <= k < |f| ==> '\t' !in f[k]
    ensures ExtractLines([line]) == [Join(f[..Min(MAX_FIELDS, |f|)], ' ')]
  {
    SplitJoin(f, '\t');
    ExtractLine(line);
  }

  /** A comment line or a line without a tab yields no descriptor. */
  lemma SkippedLine(line: string)
    requires IsComment(line) || '\t' !in line
    ensures ExtractLines([line]) == []
  {
    SplitMoreThanOne(line, '\t');
    ExtractLine(line);
  }

  /** A file made of a header line, a record of eight fields, a record of nine
      fields and a line without tabs gives exactly two descriptors: the eight
      fields of the first record and the first eight of the second. */
  lemma ExtractExample(comment: string, r1: seq<string>, r2: seq<string>, lone: string)
    requires IsComment(comment) && '\n' !in comment
    requires |r1| == 8 && forall k :: 0 <= k < |r1| ==> '\t' !in r1[k] && '\n' !in r1[k]
    requires |r2| == 9 && forall k :: 0 <= k < |r2| ==> '\t' !in r2[k] && '\n' !in r2[k]
    requires !IsComment(Join(r1, '\t')) && !IsComment(Join(r2, '\t'))
    requires '\t' !in lone && '\n' !in lone
    ensures Extract(Join([comment, Join(r1, '\t'), Join(r2, '\t'), lone], '\n'))
         == [Join(r1, ' '), Join(r2[..8], ' ')]
  {
    var l2, l3 := Join(r1, '\t'), Join(r2, '\t');
    var lines := [comment, l2, l3, lone];
    JoinExcludes(r1, '\t', '\n');
    JoinExcludes(r2, '\t', '\n');
    SplitJoin(lines, '\n');
    SkippedLine(comment);
    DescriptorOfFields(l2, r1);
    ExtractLine(l2);
    RecordLine(l3, r2);
    SkippedLine(lone);
    assert lines == [comment] + [l2] + [l3] + [lone];
    ExtractLinesAppend([comment] + [l2] + [l3], [lone]);
    ExtractLinesAppend([comment] + [l2], [l3]);
    ExtractLinesAppend([comment], [l2]);
  }
}
