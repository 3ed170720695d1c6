# ABO typing core of nf-core/abotyper, modelled in Dafny

abotyper types the ABO blood group from nanopore reads of exons 6 and 7 of
the ABO gene. Three deterministic steps of that pipeline are modelled here.
Each one hands its output, as text, to the next.

1. **Pileup decoder** (`bin/stats_from_pileup.py`, module `Pileup`).
   - It reads one `samtools mpileup` record at a time.
   - It scans the read-base column with an explicit index: `.`/`,` is a match,
     `ACGTacgt` a mismatch, `+n…`/`-n…` an insertion/deletion whose n
     characters are skipped, `*` a deletion, and `^q`/`$` are removed first.
   - It chooses whether indels count, from the exon, the depth and the position.
   - It turns the counts into truncated integer percentages. When indels are
     excluded, the reference base absorbs the rounding remainder.
   - It writes one eleven-column row per position.
   - Where a file's number of distinct positions puts it in a known exon, the
     file is typed as that exon.
2. **Phenotype report writer** (`bin/predict_abo_phenotype.py`, module `PhenotypeReport`).
   - It folds the decoder rows into a position map.
   - It decides the exon and keeps only that exon's diagnostic positions.
   - It replaces every coverage with the read count of the coverage file.
   - It writes one fixed text block per kept position.
3. **Report reader, marker calls and resolver** (`bin/aggregate_abo_reports.py`).
   - Module `ReportReader` scans the blocks back into rows, zero-fills missing
     required positions, sorts by position and calls each row.
   - Module `MarkerCalls` holds the threshold rules that map percentages to
     marker calls.
   - Module `Genotype` looks the five primary calls up in a fifteen-row table
     and grades reliability by the smallest positive read count.

Module `RoundTrip` connects step 2 to step 3. Every block the writer emits is
read back by the reader with the same position, read count and eight
percentages, in the order written. Modules `Wrappers`, `Text` and `Exons` hold
shared pieces:
- `Option`;
- the Python string operations the scripts use (`strip`, `split`, `int`, the
  `:\s*(\d+)` search, upper/lower case);
- the two exons.

Where a script loops or updates state, the model is a method with loop
invariants. Examples are the read-base scan, the digit loop of an indel, the
two passes over a pileup, the row folding, the coverage and filter loops, the
block writer and the report scan. Each such method is proved equal to a
specification function. The properties are proved about that function.

## Model

| member | source | states |
|---|---|---|
| Pileup.ZeroStats | bin/stats_from_pileup.py:41-55 | the all-zero record keeps the position and reference base and has every number 0 |
| Pileup.AddBase | bin/stats_from_pileup.py:98-108 | `base_counts[b] += 1` succeeds exactly when b is one of A/C/G/T and then adds one to the base total |
| Pileup.RemoveReadEnds | bin/stats_from_pileup.py:90 | after removing read ends no `$` is left, and the column does not grow |
| Pileup.RemoveReadEndsAppend | bin/stats_from_pileup.py:90 | removing read ends distributes over concatenation, so every other character is kept, in order |
| Pileup.RemoveReadEndsChar | bin/stats_from_pileup.py:90 | a single character is dropped exactly when it is `$` |
| Pileup.RemoveReadEndsNone | bin/stats_from_pileup.py:90 | a column without `$` is left unchanged |
| Pileup.RemoveReadStartsNone | bin/stats_from_pileup.py:89 | a column without `^` is left unchanged |
| Pileup.RemoveReadStartsToken | bin/stats_from_pileup.py:89 | a `^` and the quality character after it vanish together, whatever that character is |
| Pileup.StripMarkersNone | bin/stats_from_pileup.py:89-90 | the scan sees the pileup column itself when it holds no `^` and no `$` |
| Pileup.StepAt | bin/stats_from_pileup.py:98-131 | every turn of the scan loop advances the index by at least one, so the loop terminates |
| Pileup.SkipIndel | bin/stats_from_pileup.py:109-126 | the indel branch, with its inner digit loop, moves the index exactly one step of the scan |
| Pileup.IndelStepOf | bin/stats_from_pileup.py:109-126 | an indel step is the sign, its digit run, then as many characters as the digits say (none when there are no digits) |
| Pileup.ScanReadBases | bin/stats_from_pileup.py:94-131 | the imperative scan returns the counts of the index-based scan, or fails where the source raises |
| Pileup.IncludeIndels | bin/stats_from_pileup.py:139-148 | indels are excluded iff depth < 200 and either (exon 6 and position ≠ 22) or (more than 140 lines and position ∉ {431, 687}) |
| Pileup.DecodeLine | bin/stats_from_pileup.py:76-79 | a line with fewer than six tab-separated fields is skipped |
| Pileup.ParseMpileupLine | bin/stats_from_pileup.py:68-208 | the method returns the decoded row of the line, None for a skipped line or an exception |
| Pileup.Percentages | bin/stats_from_pileup.py:150-204 | the method turning counts into percentages agrees with the specification function |
| Pileup.ScanInvariants | bin/stats_from_pileup.py:98-131 | a successful scan keeps base counts equal to matches + mismatches, never loses an event, and records at most one event per character |
| Pileup.IndelTokenAtomic | bin/stats_from_pileup.py:109-126 | `+n…`/`-n…` adds exactly one insertion/deletion, and the n characters it covers are never counted, whatever they are |
| Pileup.ScanCountsSymbols | bin/stats_from_pileup.py:98-131 | on a column without indel signs and with an A/C/G/T reference, the scan equals plain symbol counting (`.`/`,` a match on the reference, a letter a mismatch on that base, `*` a deletion) |
| Pileup.ScanShift | bin/stats_from_pileup.py:98-131 | what the scan does from an index depends only on the column from there on |
| Pileup.ScanSilent | bin/stats_from_pileup.py:98-131 | characters that are not event symbols are ignored |
| Pileup.NucleotideCounted | bin/stats_from_pileup.py:100-108 | a match symbol or base letter outside any indel token adds at least one match or mismatch |
| Pileup.SilentColumnGivesZeroRecord | bin/stats_from_pileup.py:86-87 | depth 0, or a column that decodes to no event, gives the all-zero record with the upper-cased reference, even when the depth was positive |
| Pileup.NonBaseReferenceFails | bin/stats_from_pileup.py:205-208 | a reference outside A/C/G/T fails (the KeyError) as soon as one match or mismatch is decoded |
| Pileup.NonBaseSummary | bin/stats_from_pileup.py:187-208 | with at least one nucleotide event, a reference outside A/C/G/T gives no row |
| Pileup.FloorSum4 | bin/stats_from_pileup.py:162-176 | four truncated percentages over their own total sum to 97..100 |
| Pileup.FloorSum6 | bin/stats_from_pileup.py:151-161 | six truncated percentages over their own total sum to 95..100 |
| Pileup.ExcludeMode | bin/stats_from_pileup.py:162-204 | in exclude mode indel percentages are 0, A+G+C+T = 100 and match + mismatch = 100; the reference base absorbs a remainder of 0..3; match is the reference's share; a reference outside A/C/G/T fails |
| Pileup.IncludeMode | bin/stats_from_pileup.py:151-161 | in include mode each of A, G, C, T, Ins, Del is ⌊count·100/events⌋ and the six sum to 95..100; match is the reference's share and mismatch the other three; a reference outside A/C/G/T fails |
| Pileup.DecodedRowWellFormed | bin/stats_from_pileup.py:68-208 | every decoded row is the all-zero record or obeys the exclude-mode or include-mode sums |
| Pileup.StatsFields | bin/stats_from_pileup.py:58-65 | a row has as many fields as the header, the reference base in column two |
| Pileup.RowLayout | bin/stats_from_pileup.py:58-65 | a written row splits back on tabs into exactly its eleven fields, in header order |
| Pileup.RowValues | bin/stats_from_pileup.py:58-65 | every numeric field of a written row reads back with `int()` as the number written |
| Pileup.ExonBySize | bin/stats_from_pileup.py:260-266 | 130..140 distinct positions is exon 6, 800..830 is exon 7, anything else no exon |
| Pileup.CollectPositions | bin/stats_from_pileup.py:229-258 | the first pass counts the lines and collects exactly the distinct parsable positions |
| Pileup.WriteRows | bin/stats_from_pileup.py:268-285 | the second pass writes the formatted rows of the lines that are not skipped, in order |
| Pileup.ProcessMpileup | bin/stats_from_pileup.py:211-296 | the two passes produce the header plus the rows of the specification function |
| Pileup.StatsFileRows | bin/stats_from_pileup.py:268-285 | every row of a stats file is well formed and splits back into its fields |
| Pileup.PolymorphicRows | bin/stats_from_pileup.py:322-326 | the all-zero record is never listed; an exclude-mode row is listed iff match ≤ 100 − threshold |
| PhenotypeReport.ColumnIndex | bin/predict_abo_phenotype.py:83-97 | a column is found at the first header cell with that name, or not at all |
| PhenotypeReport.ReadRow | bin/predict_abo_phenotype.py:83-118 | a row read from the stats file starts with coverage 0; a row with a missing or non-integer cell is skipped |
| PhenotypeReport.ParsedRows | bin/predict_abo_phenotype.py:83-118 | rows whose position or percentage cells are not integers are skipped, the others kept in file order; the kept rows all carry coverage 0 |
| PhenotypeReport.KeyOrder | bin/predict_abo_phenotype.py:98-110 | the dict keys in insertion order: exactly the map's keys, each once |
| PhenotypeReport.ReadFrequencies | bin/predict_abo_phenotype.py:53-142 | fewer than 134 data rows gives the empty result; the result is flagged empty exactly when it is the empty result, and otherwise holds at least one position, every key in the key order |
| PhenotypeReport.FrequencyStep | bin/predict_abo_phenotype.py:98-112 | one more row overwrites its position's entry, joins the key order when new, and raises the maximum position |
| PhenotypeReport.ReadNucleotideFrequencies | bin/predict_abo_phenotype.py:53-142 | the loop returns the map, key order and maximum of the specification function |
| PhenotypeReport.LastRowWins | bin/predict_abo_phenotype.py:98-110 | the map holds exactly the parsed positions, each with the entry of its last row |
| PhenotypeReport.MaxPositionBounds | bin/predict_abo_phenotype.py:111-112 | max_position is 0 or a parsed position, and no parsed position exceeds it |
| PhenotypeReport.MapCoverageZero | bin/predict_abo_phenotype.py:98-109 | every entry of the map starts with coverage 0 |
| PhenotypeReport.ReadWrittenRow | bin/predict_abo_phenotype.py:83-118 | a row the decoder wrote reads back under the written header with the same position, reference and eight percentages |
| PhenotypeReport.ReadWrittenRows | bin/predict_abo_phenotype.py:83-118 | reading a file of written rows skips none of them |
| PhenotypeReport.StatsFileReadBack | bin/predict_abo_phenotype.py:53-142 | a stats file of at least 134 rows reads back with one parsed row per decoded row |
| PhenotypeReport.ApplyCoverage | bin/predict_abo_phenotype.py:551-552 | the coverage loop sets every entry's coverage as the specification function says |
| PhenotypeReport.CoverageOverride | bin/predict_abo_phenotype.py:535-557 | the keys and all other fields are unchanged; every coverage becomes numreads when coverage data exists, 0 otherwise |
| PhenotypeReport.ExonFromFilename | bin/predict_abo_phenotype.py:195-214 | the lower-cased name containing "exon6" gives exon 6 (tested first), else "exon7" gives exon 7 |
| PhenotypeReport.ChooseExon | bin/predict_abo_phenotype.py:559-574 | an explicit exon wins, then the file name, else exon 7 iff max_position > 135 |
| PhenotypeReport.FilenameCaseInsensitive | bin/predict_abo_phenotype.py:195-214 | the file-name rule ignores letter case |
| PhenotypeReport.FilterPositions | bin/predict_abo_phenotype.py:579-625 | the filter keeps exactly the entries at the exon's diagnostic positions, values unchanged |
| PhenotypeReport.FormatNumber | bin/predict_abo_phenotype.py:42-50 | an integer is printed without a decimal point and without spaces, and `int()` reads it back |
| PhenotypeReport.CoverageDisplay | bin/predict_abo_phenotype.py:227 | the " (reads=…, cov=…)" suffix appears iff numreads > 0 |
| PhenotypeReport.FormatValues | bin/predict_abo_phenotype.py:262-266 | each of the eight formatted values holds no space and reads back with `int()` as the value |
| PhenotypeReport.Present | bin/predict_abo_phenotype.py:273-276 | the listed positions that the map holds, and only those |
| PhenotypeReport.PresentIncreasing | bin/predict_abo_phenotype.py:273-276 | keeping some elements of an ascending list leaves it ascending, so sorting changes nothing |
| PhenotypeReport.ReportPositions | bin/predict_abo_phenotype.py:236-314 | every position a report writes a block for is in the map |
| PhenotypeReport.DiagnosticLists | bin/predict_abo_phenotype.py:581-625 | the primary and subtype lists are ascending and disjoint, and together they are the positions the filter keeps |
| PhenotypeReport.ReportOrder | bin/predict_abo_phenotype.py:347-466 | a report has one block per kept position present, none twice; the primary positions come first in their fixed order and the subtype positions follow in ascending order |
| PhenotypeReport.PrimaryLines | bin/predict_abo_phenotype.py:347-398 | the first writer loop emits a block for each primary position present, in list order |
| PhenotypeReport.SubtypeLines | bin/predict_abo_phenotype.py:402-466 | the second writer loop emits the subtype heading and blocks, or nothing |
| PhenotypeReport.WriteReport | bin/predict_abo_phenotype.py:328-479 | the writer emits the title line, then block after block, as the specification function says |
| PhenotypeReport.PredictPhenotype | bin/predict_abo_phenotype.py:482-640 | read, override coverage, choose the exon, filter, then write the report |
| ReportReader.ParseAll | bin/aggregate_abo_reports.py:174-178 | the numbers of a values line parse iff every word parses, one number per word |
| ReportReader.Insert | bin/aggregate_abo_reports.py:254 | inserting a row adds exactly that row |
| ReportReader.InsertSorted | bin/aggregate_abo_reports.py:254 | insertion keeps the rows sorted by position |
| ReportReader.SortByPosition | bin/aggregate_abo_reports.py:254 | sort_values("Position") gives a sorted permutation of the rows |
| ReportReader.StatsAtRecord | bin/aggregate_abo_reports.py:163-191 | a window line is recorded iff it holds "Aligned Read Count:" with a number, the next line holds "Mat", and the one after that holds eight numbers equal to the reading |
| ReportReader.WindowRecord | bin/aggregate_abo_reports.py:163-191 | a recorded window has a count block within ten lines, and every earlier line was passed over |
| ReportReader.LineRecord | bin/aggregate_abo_reports.py:154-192 | a row is recorded only for a stripped line holding the position marker, its position the first number after a colon, with a count block in its window |
| ReportReader.ReadingsFromLines | bin/aggregate_abo_reports.py:154-192 | the readings are exactly those of the recording position lines, in file order: the returned line indices strictly increase, the n-th reading is the n-th index's record, and every recording line is among them |
| ReportReader.ReadingsFail | bin/aggregate_abo_reports.py:154-192 | the scan raises iff some position line's window raises |
| ReportReader.ZeroFillSpec | bin/aggregate_abo_reports.py:215-252 | zero fill only appends; every required position is then present, and each added row is the zero row of a required position no earlier row holds |
| ReportReader.ParsedExonScanned | bin/aggregate_abo_reports.py:135-261 | after a clean scan the rows are the zero-filled readings sorted by position, every required position present, each row called by its exon's classifier |
| ReportReader.ParsedExonFailed | bin/aggregate_abo_reports.py:265-321 | when a window raises, only the uncalled zero rows of the required positions come back |
| ReportReader.CountLineRead | bin/aggregate_abo_reports.py:165-167 | a count line reads back as the count before its first non-digit |
| ReportReader.PositionLineRead | bin/aggregate_abo_reports.py:156-161 | a position line as written is unchanged by strip and reads back as its position |
| ReportReader.ExtraValuesFail | bin/aggregate_abo_reports.py:174-189 | a values line with more than eight numbers sends the whole parse to the zero rows |
| ReportReader.ScanWindow | bin/aggregate_abo_reports.py:163-191 | the inner loop returns the outcome of the window specification |
| ReportReader.ScanLine | bin/aggregate_abo_reports.py:164-189 | one turn of the inner loop returns that line's outcome |
| ReportReader.FillRequired | bin/aggregate_abo_reports.py:215-252 | the zero-fill loop returns the zero-fill specification |
| ReportReader.ParseExon | bin/aggregate_abo_reports.py:135-321 | the imperative parse returns the parsed rows of the specification function |
| MarkerCalls.GetTypeExon6 | bin/aggregate_abo_reports.py:478-520 | the result is "" or one of the labels of that position's own branch |
| MarkerCalls.GetType | bin/aggregate_abo_reports.py:522-627 | the result is "" or one of the labels of that position's own branch |
| MarkerCalls.Position22DeadZone | bin/aggregate_abo_reports.py:486-497 | for non-negative inputs the fourth rule at 22 never fires, and the call is "" iff G + Del < 20 |
| MarkerCalls.DominantBaseDecides | bin/aggregate_abo_reports.py:522-627 | for percentages of one read set, a base at or above its threshold always gets its own label |
| MarkerCalls.ZeroRecordCalls | bin/aggregate_abo_reports.py:478-627 | the zero row gives "" at 22 and at every subtype position, and the "both alleles" labels at 422, 428, 429, 431 |
| Genotype.LookupFirst | bin/aggregate_abo_reports.py:660-861 | the first matching rule decides the lookup |
| Genotype.LookupNone | bin/aggregate_abo_reports.py:660-861 | when no rule matches the lookup gives Unknown |
| Genotype.RuleShapes | bin/aggregate_abo_reports.py:660-861 | there are fifteen combinations; each needs five non-empty calls, and its phenotype follows from its genotype |
| Genotype.TableDistinct | bin/aggregate_abo_reports.py:660-861 | the fifteen patterns are pairwise different |
| Genotype.ResolveIsLookup | bin/aggregate_abo_reports.py:660-861 | the if/elif ladder is the table read top to bottom |
| Genotype.Resolve | bin/aggregate_abo_reports.py:660-861 | the phenotype always follows the genotype; ResolveIsLookup, ResolveMatch and ResolveUnknown state which rung decides |
| Genotype.ResolveMatch | bin/aggregate_abo_reports.py:660-861 | a matching combination decides, whatever its place in the table |
| Genotype.ResolveUnknown | bin/aggregate_abo_reports.py:660-861 | the result is Unknown iff no combination matches |
| Genotype.MissingCallUnknown | bin/aggregate_abo_reports.py:632-658 | a NaN or empty primary call, including at 22, gives Unknown |
| Genotype.PhenotypeFollowsGenotype | bin/aggregate_abo_reports.py:660-861 | the phenotype is a function of the genotype |
| Genotype.NamedCombinations | bin/aggregate_abo_reports.py:660-861 | the O1-deletion combination gives A/AO/AO1, and the B/O2 row's extended label is "O2B" |
| Genotype.MinPositive | bin/aggregate_abo_reports.py:863-870 | the smallest present positive read count, or none when no count is present and positive |
| Genotype.Reliability | bin/aggregate_abo_reports.py:863-883 | "Unknown (no read data)" exactly when no primary read count is present and positive; ReliabilityGrades gives the other bands |
| Genotype.ReliabilityGrades | bin/aggregate_abo_reports.py:863-883 | each grade holds exactly on its band of the smallest positive read count |
| Genotype.FirstAt | bin/aggregate_abo_reports.py:955-1016 | a parsed row at the position, or none iff no row has that position |
| Genotype.FirstAtIsFirst | bin/aggregate_abo_reports.py:955-1016 | the row found is the first at that position: no earlier row has it |
| Genotype.ParsedHasRequired | bin/aggregate_abo_reports.py:215-321 | both parse paths give every required position a row |
| Genotype.AssignSample | bin/aggregate_abo_reports.py:955-1018 | per sample, the phenotype column follows the genotype column, and the grade is "Unknown (no read data)" exactly when none of the five primary #Reads cells is positive; FailedReportUnknown, FailedReportsNoReadData and MissingPosition22Unknown cover the failure paths |
| Genotype.WideRowComplete | bin/aggregate_abo_reports.py:955-1016 | the wide row of any two reports has all five primary Type and #Reads cells |
| Genotype.FailedReportUnknown | bin/aggregate_abo_reports.py:265-321 | a report whose parse raised resolves to Unknown |
| Genotype.FailedReportsNoReadData | bin/aggregate_abo_reports.py:863-883 | when both parses raise the grade is "Unknown (no read data)" |
| Genotype.MissingPosition22Unknown | bin/aggregate_abo_reports.py:396-420 | an exon-6 report without a block for 22 gets the zero row there and resolves to Unknown |
| RoundTrip.MarkersAgree | bin/predict_abo_phenotype.py:362 | the writer's position line holds the marker the reader looks for |
| RoundTrip.SkipLines | bin/aggregate_abo_reports.py:154-192 | lines without an 'E' add no reading and raise nothing |
| RoundTrip.ValuesLineRead | bin/predict_abo_phenotype.py:387-397 | the values line splits back into the eight formatted numbers, which parse to the values |
| RoundTrip.CountLineOf | bin/predict_abo_phenotype.py:384-386 | the count line's first number is the coverage |
| RoundTrip.WindowOverBlock | bin/predict_abo_phenotype.py:362-397 | the window passes over the position and explanation lines and records the reading at the count line |
| RoundTrip.BlockWindow | bin/predict_abo_phenotype.py:362-397 | from a block's position line the window records that block's reading |
| RoundTrip.ReadingsBlock | bin/predict_abo_phenotype.py:362-397 | the reader adds exactly one reading for a block: its position, count and eight values |
| RoundTrip.ReadingsBlocks | bin/predict_abo_phenotype.py:347-398 | a list of blocks reads back as the readings of its positions, in order |
| RoundTrip.SubtypeSectionReads | bin/predict_abo_phenotype.py:402-466 | the subtype section reads back as the readings of the subtype positions present |
| RoundTrip.ReportReadBack | bin/predict_abo_phenotype.py:328-479 | a whole report reads back, without raising, as the coverage and eight values of every position written, in the order written |
| RoundTrip.ReportParsed | bin/aggregate_abo_reports.py:135-261 | after zero fill, sort and typing the rows still hold every reading the report wrote |
| RoundTrip.FillKeeps | bin/aggregate_abo_reports.py:215-252 | zero fill keeps every reading it starts from |
| Text.ParseIntOfIntToString | bin/stats_from_pileup.py:81-83 | `int()` reads back any printed integer |
| Text.SplitJoin | bin/stats_from_pileup.py:76 | splitting on a separator undoes joining fields that do not contain it |
| Text.WordsJoin | bin/aggregate_abo_reports.py:174 | whitespace `split()` undoes joining non-empty words with a whitespace separator |
| Text.UpperLetters | bin/stats_from_pileup.py:82 | upper-cased text has no 'g', and no 'E' unless the text had an 'e' or 'E' |
| Text.ColonNumberOf | bin/aggregate_abo_reports.py:159-161 | the `:\s*(\d+)` search finds the digits after the first colon |

## Left out

- File and process plumbing is not modelled. A file is the sequence of its lines.
  - Not modelled: gzip input, directory creation, argparse, the empty-output
    fallbacks of `predict_abo_phenotype.py`, and the directory walk and file-name
    parsing of `process_file`.
  - All print and logging output is left out.
- `read_coverage_file` is not part of this model. Its result, read counts or
  none, is a parameter (`Option<CoverageInfo>`).
- The file handling of `generate_summary` is not modelled. Only its threshold
  predicate is (`Pileup.IsPolymorphic`).
- Percentages are modelled as integer division `count * 100 / total`.
  - Python computes `int((count / total) * 100)` in floating point, which can
    be one lower when the exact quotient is whole.
  - The model does not claim bit-exact agreement there.
  - Every percentage in the pipeline is an integer, so the two-decimal branch
    of `format_number` is not modelled.
- The explanation lines of a block are fixed constants, and the reader never
  reads them. They are not checked against the classifier's bases.
- `merge_dataframes`, `save_results_to_file` and its Excel/LIS output are not
  part of this model, and neither is `bin/rename_samples.py`.
- The subtype Type cells gathered for exon-6 and exon-7 subtype positions are
  never used by the resolver, so they are not modelled. The resolver does not
  refine AA into A subtypes, and neither does the model.
- The resolver's error path ("Error" / "Error processing") is not modelled.
  - Every step of the model is total.
  - `Genotype.WideRowComplete` proves that all five primary cells are always
    present, so the lookups that could raise there always succeed.
- Text is ASCII. `upper()`/`lower()` change only the ASCII letters, and the
  whitespace that `strip()`/`split()` recognise is the ASCII whitespace.
- Text.ParseInt: strips surrounding whitespace, as `int()` does, then reads an
  optional sign followed by ASCII decimal digits. Python's `int()` also accepts
  `_` between digits (`"1_000"`) and non-ASCII decimal digits; the model rejects
  those. Every number the pipeline itself writes is in the plain form.
- PhenotypeReport.ReadRow / PhenotypeReport.ParsedRows /
  PhenotypeReport.ReadFrequencies: only stats files as the decoder writes them
  are modelled. PhenotypeReport.StatsFileReadBack proves that such a file is
  read back in full. pandas' handling of malformed files is not modelled:
  - An empty cell, `nan` or `NA` is NaN in pandas, and `float(NaN)` succeeds.
    The source therefore keeps such a row, counts it for `any_data` and
    `max_position`, and fails later in `format_number`. The model skips it.
  - A decimal percentage cell such as `33.5` is kept by the source and skipped
    by the model, whose numbers are integers.
  - A data row with more fields than the header makes `read_csv` raise, and the
    source returns the empty result. The model reads the row by column name.
  - A data row with fewer fields than the header is padded with NaN by pandas
    and kept by the source. The model skips it.
  - pandas drops blank lines before the 134-row test; the model counts every
    line after the header.
- ReportReader.ParseAll: the eight values of a block are read as integer words
  only, since every percentage the pipeline writes is an integer. The source's
  `float()` also reads `33.33`, `1e2`, `nan` or `inf`. On such a word the model
  raises, so the exon falls back to the zero rows, whereas the source reads the
  value and classifies it.
- The pandas DataFrame is a list of records. The ten parallel lists of
  `parse_exon6`/`parse_exon7` are one list of readings.
  - Sorting is a stable insertion sort by position. pandas' default
    `sort_values` (quicksort) is not stable, so rows with equal positions may
    come out in another order there, and the row `iloc[0]` takes may differ.
    The two agree whenever the positions are distinct, which holds for the
    reports the phenotype writer produces: it emits at most one block per
    position (PhenotypeReport.ReportOrder), and zero fill adds only missing
    positions.
  - Lookups in the wide row take the first row at a position, as `iloc[0]` does.
- RoundTrip.ReportReadBack: holds for entries whose coverage is non-negative
  and whose reference base holds no 'E' and no 'g'. Otherwise the reader could
  mistake a reference line for a marker, or fail to read a negative count.
  - A decoded row's reference is the upper-cased reference field.
  - So it never holds a 'g', and it holds an 'E' only when the field held an
    'e' or 'E' (Text.UpperLetters); A/C/G/T/N references qualify.
  - The coverage is the coverage file's read count, or 0 without one.
  - A row from a reference field such as `e` (depth 0 gives
    `ZeroStats(pos, "E")`) is not covered, and neither is a negative read count.
- RoundTrip.ReportParsed: states that every written reading survives into the
  parsed rows (multiset inclusion). It does not state which zero rows are
  added; that is what ReportReader.ZeroFillSpec states.
- Genotype.ResolveIsLookup: each rung of the ladder is one comparison of the
  whole five-cell row with a combination. That is the same as the source's
  five cell comparisons joined by `and`.
