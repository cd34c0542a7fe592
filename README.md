# project_handbag, modelled in Dafny

project_handbag studies how contacts are arranged around a central chemical
group in crystal structures. Its input is coordinate files exported from a
structure database. Each file holds many fragments: one central group
together with the atoms in contact with it. The pipeline runs in stages.

- **Loading.** It reads the coordinate files into fragments and atoms.
  - Atoms get unique labels by appending `a`s.
  - Labels are renamed by a parameter table.
  - Symbols come from the labels.
- **Alignment.** It aligns every fragment onto a common frame.
  - By translation and three axis rotations: the center atom goes to the origin, one atom onto the x-axis and one into the xy-plane.
  - Or by a Kabsch fit onto the first fragment.
  - Either way, a fragment whose mean z is negative is mirrored.
- **Reference fragment.** It averages the aligned central groups into one reference fragment.
- **Contact search.** It picks the contact atoms within van der Waals distance of the central group.
- **Density.** It counts those contact atoms on a 3-D grid of bins, normalises the counts, and computes the volume that is available outside the central group's van der Waals spheres.
- **Directionality.** From the densest bins it derives a directionality score.

The repository holds several successive rewrites of the same steps:
- the prototypes under `helpers/`;
- the scripts under `code/`;
- the package under `src/`.

Where the rewrites behave differently, each gets its own module. Every module
names its source file in its header comment.

The model works on values and objects, as the source does:
- **Pure functions** (symbol derivation, label generation, the rotation matrices, bin arithmetic) become Dafny functions, with lemmas stating what they promise.
- **Classes that update their fields** (`Atom`, `Fragment`, `Molecule`, `Radii`, `Settings`, `Fingerprint`) become Dafny classes.
- **Loops that rewrite a coordinate table row by row, fill bins or count fragments** become methods.
  - Each has loop invariants.
  - Each is proved against a specification function.
- **DataFrames** become sequences of rows. Columns are fields or maps.
- **Python exceptions** (KeyError, IndexError, ValueError, ZeroDivisionError, UnboundLocalError) become the `Err` cases of a `Result`.
- **Coordinates** are exact reals.
- **Square roots** are a parameter `sqrt` together with the predicate that it returns the non-negative root.
- **Float parsing** is a parameter `parseReal`.
- **The Kabsch fit** is an abstract rigid transform.

## Model

| member | source | states |
|---|---|---|
| AlignKabsch.PrepareData | code/src/scripts/align_kabsch.py:108-123 | succeeds exactly when both new columns have one entry per row (the rows split into whole fragments and the tiled labels fill them); row i then gets fragment id i div no_atoms and label i mod the label count |
| AlignKabsch.TiledLabels | code/src/scripts/align_kabsch.py:120-121 | `label_list * fragments` gives row i the label at i mod the label count |
| AlignKabsch.FragmentIds | code/src/scripts/align_kabsch.py:115-117 | `np.repeat(range(fragments), no_atoms)` gives row i the fragment id i div no_atoms |
| AlignKabsch.KabschAlignedFragment | code/src/scripts/align_kabsch.py:73-91 | every fragment after the first is its Kabsch fit onto the first fragment's central rows, mirrored when the fit leaves its mean z negative; its `mirrored` entry records that and its `rmse` entry scores its new central rows against the reference |
| AlignKabsch.DoKabschAlign | code/src/scripts/align_kabsch.py:46-91 | the coordinate array ends as `KabschAligned` describes: the first fragment translated, rotated and mirrored, every later fragment fitted onto its central rows, with the `mirrored` and `rmse` columns |
| AlignKabsch.KabschAlignedIntro | code/src/scripts/align_kabsch.py:55-91 | what the first-fragment treatment and the loop leave behind is exactly the outcome `KabschAligned` describes |
| AlignKabsch.AlignRest | code/src/scripts/align_kabsch.py:73-91 | after the loop every fragment from 1 on holds its aligned rows and its `mirrored` and `rmse` entries, and fragment 0 is untouched |
| AlignKabsch.Canonicalize | code/src/scripts/align_kabsch.py:55-67 | the first fragment is replaced by its translated, rotated and (if its mean z is negative) mirrored copy, everything else is unchanged, and the result says whether it was mirrored |
| AlignKabsch.KabschOne | code/src/scripts/align_kabsch.py:74-91 | one iteration: fragment k is replaced by its fitted and mirrored rows, nothing else changes, and the `mirrored` and `rmse` values are returned |
| AlignKabsch.KabschFragmentSpec | code/src/scripts/align_kabsch.py:78-84 | the fit carries the centroid of the central group onto the centroid of the reference, and the written fragment never has a negative mean z |
| AlignKabsch.KabschRmseZeroIff | code/src/scripts/align_kabsch.py:87 | the RMSE is non-negative and zero exactly when the aligned central rows coincide with the reference |
| AlignRotations.RotationsAlignedFragment | code/align_rotations.py:47-90 | every fragment, the first included, is its translated, rotated and mirrored self; its `mirrored` entry says whether it was flipped; every later fragment's `rmse` scores its new rows against the new first fragment |
| AlignRotations.CanonicalFragmentSpec | code/align_rotations.py:74-86 | after the treatment the center atom is at the origin, the mean z is not negative, and every pairwise distance is as before |
| AlignRotations.DoRotationAlign | code/align_rotations.py:44-90 | the coordinate array ends as `RotationsAligned` describes, with the `mirrored` and `rmse` columns |
| AlignRotations.RotationsAlignedIntro | code/align_rotations.py:47-90 | what the first-fragment treatment and the loop leave behind is exactly the outcome `RotationsAligned` describes |
| AlignRotations.RotateRest | code/align_rotations.py:68-90 | after the loop every fragment from 1 on holds its treated rows and its `mirrored` and `rmse` entries; fragment 0 is untouched |
| AlignRotations.RotateAt | code/align_rotations.py:69-90 | one loop iteration extends the "treated up to i" invariants of the rows and of both columns to i+1 |
| AlignRotations.RotateOne | code/align_rotations.py:70-90 | fragment k is replaced by its treated rows, nothing else changes, and its flip and RMSE against the reference are returned |
| AlignmentHelpers.LogicSkipsOnlyHeaders | src/scripts/helpers/alignment_helpers.py:42-47 | within each block of one header and `amount_atoms` atom lines, `logic` picks exactly the header line |
| AlignmentHelpers.GetAtomSymbol | src/scripts/helpers/alignment_helpers.py:33-39 | the symbol is a prefix of the atom id, one character long exactly when the id's second character is a digit, and two characters long otherwise |
| AlignmentHelpers.PerformTranslation | src/scripts/helpers/alignment_helpers.py:83-93 | keeps the row count and puts the center row on the origin |
| AlignmentHelpers.PerformTranslationKeepsDifferences | src/scripts/helpers/alignment_helpers.py:83-93 | the translation keeps the difference between every two rows |
| AlignmentHelpers.FindCoordVector | src/scripts/helpers/alignment_helpers.py:127-136 | the atom with exactly its coordinate along the given axis zeroed |
| AlignmentHelpers.FindRotationDirection | src/scripts/helpers/alignment_helpers.py:139-149 | -1 exactly when the coordinate the rotation cancels (z for the x and y axes, y for the z axis) is negative, 1 otherwise |
| AlignmentHelpers.VecMatRotate | src/scripts/helpers/alignment_helpers.py:184-212 | `RotationMatrix`, `RotateAboutX`, `RotateAboutY`, `RotateAboutZ`: the row-times-matrix product with `rotate_x`, `rotate_y` or `rotate_z` is the written-out rotation about that axis |
| AlignmentHelpers.RotationKeepsLengthAndAxis | src/scripts/helpers/alignment_helpers.py:191-212 | a rotation keeps a row's length and its coordinate along the rotation axis |
| AlignmentHelpers.RotateAllKeepsDistances | src/scripts/helpers/alignment_helpers.py:173-188 | rotating every row keeps every pairwise distance and every row's length |
| AlignmentHelpers.CalculateRotation | src/scripts/helpers/alignment_helpers.py:173-188 | the array afterwards holds every original row multiplied by the rotation matrix, in order |
| AlignmentHelpers.AngleRotationSpec | src/scripts/helpers/alignment_helpers.py:152-170 | the signed angle gives a rotation; below the norm 1e-10 it is the identity, otherwise its cosine and sine times the norm are the compared and the cancelled coordinate |
| AlignmentHelpers.AngleRotationAligns | src/scripts/helpers/alignment_helpers.py:105-122 | unless the projection is tiny but non-zero, rotating an atom by its own angle puts it on the reference axis: the compared coordinate becomes the projection's norm and the cancelled one zero |
| AlignmentHelpers.PerformRotationsSteps | src/scripts/helpers/alignment_helpers.py:96-124 | `perform_rotations` is the z step and the y step by the first atom, then the x step by the second atom, each applied to the previous result |
| AlignmentHelpers.StepAligns | src/scripts/helpers/alignment_helpers.py:105-122 | a step whose projection is zero or at least 1e-10 long leaves its atom with a non-negative compared coordinate and a zero cancelled coordinate |
| AlignmentHelpers.StepKeepsAxis | src/scripts/helpers/alignment_helpers.py:173-188 | a step keeps every row's coordinate along its axis |
| AlignmentHelpers.PerformRotationsCanonical | src/scripts/helpers/alignment_helpers.py:96-102 | the docstring's promise, when no projection is tiny but non-zero: the first atom lies on the non-negative x axis and the second in the xy plane on the non-negative y side |
| AlignmentHelpers.PerformRotationsKeepsDistances | src/scripts/helpers/alignment_helpers.py:96-124 | the three rotations keep every pairwise distance and every row's length |
| AlignmentHelpers.PerformRotations | src/scripts/helpers/alignment_helpers.py:96-124 | the array afterwards holds `PerformRotationsSpec` of its old contents |
| AlignmentHelpers.TranslateAndRotateCanonical | src/scripts/helpers/alignment_helpers.py:83-124 | after translation and rotation the center atom is at the origin, the first atom on the non-negative x axis and the second in the xy plane on the non-negative y side |
| AlignmentHelpers.TranslateAndRotate | src/scripts/helpers/alignment_helpers.py:83-124 | one position per atom; where the atoms end up is stated by `AlignmentHelpers.TranslateAndRotateCanonical` |
| AlignmentHelpers.TranslateAndRotateCenter | src/scripts/helpers/alignment_helpers.py:83-124 | the center atom stays at the origin through the three rotations |
| AlignmentHelpers.TranslateAndRotateKeepsDistances | src/scripts/helpers/alignment_helpers.py:83-124 | translation followed by the rotations keeps every pairwise distance |
| AlignmentHelpers.SumSqErrZeroIff | src/scripts/helpers/alignment_helpers.py:218-220 | the summed squared error is never negative and is zero exactly when the two blocks agree row for row |
| AlignmentHelpers.CalcRmseZeroIff | src/scripts/helpers/alignment_helpers.py:215-222 | `CalcRmse`: the RMSE is non-negative and zero exactly when the two blocks agree |
| AlignmentHelpers.KabschAlign | src/scripts/helpers/alignment_helpers.py:50-80 | moves every row of `B2` by the fitted rotation and the translation, keeping the row count |
| AlignmentHelpers.KabschPrefix | src/scripts/helpers/alignment_helpers.py:75-78 | the rotation and translation depend only on `A` and `B`: the central rows of a moved fragment are the moved central rows |
| AlignmentHelpers.KabschCentroid | src/scripts/helpers/alignment_helpers.py:57-75 | the Kabsch step carries the centroid of `B` onto the centroid of `A`, whatever rotation the decomposition yields |
| AlignmentHelpers.MeanAffine | src/scripts/helpers/alignment_helpers.py:75-78 | the centroid of the moved rows is the moved centroid |
| AlignmentSettingsModel.TranslationKeyWitness | src/scripts/classes/Settings.py:197-200 | every key of the translation dictionary is the stripped atom of some column pair whose label contains "LAB" |
| AlignmentSettingsModel.TranslationHasKey | src/scripts/classes/Settings.py:197-200 | the atom of every column pair whose label contains "LAB" is a key of the dictionary |
| AlignmentSettingsModel.TranslationLastWins | src/scripts/classes/Settings.py:198-200 | an atom's label is the one of the last labelled pair naming it |
| AlignmentSettingsModel.AtomsToLabels | src/scripts/classes/Settings.py:186-202 | the loop over `zip(labels, atoms)` builds exactly the dictionary `Translation` of the zipped pairs |
| AlignmentSettingsModel.NextFrag | src/scripts/classes/Settings.py:175-184 | the first line at or after the start that contains "FRAG": no earlier line contains it, and none at all when there is none |
| AlignmentSettingsModel.CoordLabelsSpec | src/scripts/classes/Settings.py:168-184 | the label list has one entry per line between the first two headers, each the translation of that line's first space-separated field or '-', and the second header does exist |
| AlignmentSettingsModel.RenameStepSpec | src/scripts/classes/Settings.py:240-246 | one renaming step fails exactly when the R atom is not in the label list; otherwise it replaces only its first occurrence by the new label, adds the atom as a key mapped to the new label, redirects every value naming it, and changes no other entry |
| AlignmentSettingsModel.RenameUpToFails | src/scripts/classes/Settings.py:237-241 | once a step raises, the whole renaming fails |
| AlignmentSettingsModel.RenameSkips | src/scripts/classes/Settings.py:233 | a '-' or empty entry leaves both tables unchanged |
| AlignmentSettingsModel.RenameUpToShape | src/scripts/classes/Settings.py:237-246 | renaming keeps the label list's length, every dictionary key and the number of central atoms |
| AlignmentSettingsModel.RenameShape | src/scripts/classes/Settings.py:229-246 | `rename_labels` keeps the label list's length, every dictionary key and the number of central atoms |
| AlignmentSettingsModel.AlignmentOfShape | src/scripts/classes/Settings.py:204-227 | after `make_alignment_dict` the six fields are keys, and the label list keeps its length and its number of central atoms |
| AlignmentSettingsModel.AlignmentSettings.constructor | src/scripts/classes/Settings.py:127-131 | the label file is the coordinate file with its last extension replaced by ".csv", and the tables start empty |
| AlignmentSettingsModel.AlignmentSettings.SetLabelFile | src/scripts/classes/Settings.py:136-137 | sets the label file and nothing else |
| AlignmentSettingsModel.AlignmentSettings.SetNoFragments | src/scripts/classes/Settings.py:139-140 | sets the fragment count and nothing else |
| AlignmentSettingsModel.AlignmentSettings.ReadCoordFile | src/scripts/classes/Settings.py:156-184 | succeeds exactly when a second header exists; the label list is then `CoordLabels`, `no_atoms` its length and `no_atoms_central` the number of entries other than '-' |
| AlignmentSettingsModel.AlignmentSettings.RelabelValues | src/scripts/classes/Settings.py:244-246 | every dictionary value equal to the old label becomes the new one, and nothing else changes |
| AlignmentSettingsModel.AlignmentSettings.RenameLabels | src/scripts/classes/Settings.py:229-246 | fails exactly when the script raises; otherwise the two tables become `Rename` of the old ones |
| AlignmentSettingsModel.AlignmentSettings.MakeAlignmentDict | src/scripts/classes/Settings.py:204-227 | fails exactly when renaming raises; otherwise the tables become `AlignmentOf` the label list and the central group's row |
| AlignmentSettingsModel.AlignmentSettings.ReadFiles | src/scripts/classes/Settings.py:133-134 | succeeds exactly when the tables can be built; they are then `AlignmentTables` of the files, with the two atom counts |
| AlignmentSettingsModel.AlignmentSettings.GetIndexAlignmentAtom | src/scripts/classes/Settings.py:248-249 | an index exactly when the position names a single label that is in the label list; it is then the first index of that label |
| AlignmentSettingsModel.NewAlignmentSettings | src/scripts/classes/Settings.py:127-134 | succeeds exactly when the names parse and the tables can be built; the new object then holds those tables, the two counts and the label file |
| AnalyzeDensity.PositivesSpec | code/analyze_density.py:115 | of non-negative counts, the kept ones are exactly the positive ones, and they carry the whole total |
| AnalyzeDensity.Positives | code/analyze_density.py:115 | the kept counts are exactly the positive values among the counts, none added |
| AnalyzeDensity.SortDescendingSpec | code/analyze_density.py:116 | `population.sort(reverse=True)` gives a non-increasing list that is a permutation of the counts |
| AnalyzeDensity.SortDescending | code/analyze_density.py:116 | keeps the number of counts; `AnalyzeDensity.SortDescendingSpec` states the non-increasing order and that the counts are the same |
| AnalyzeDensity.Calculate80Percent | code/analyze_density.py:111-128 | fails exactly when the total is zero (the loop indexes an empty population); otherwise the empty-bin count is the number of zero counts, and the bin count is the least number of largest counts whose fractions reach 0.8 |
| AnalyzeDensity.PopulationFacts | code/analyze_density.py:112-116 | the sorted positive counts are positive, sum to the total, and are present exactly when the total is positive |
| AnalyzeDensity.SortedPositives | code/analyze_density.py:116 | sorting positive counts keeps them positive and keeps their sum |
| AnalyzeDensity.PrefixStep | code/analyze_density.py:124-126 | one more iteration adds that count's fraction of the total |
| AnalyzeDensity.CountBinsInVdw | code/analyze_density.py:72-108 | the total is the number of bin centres (starts moved half a bin) strictly within some atom's radius plus the contact radius plus 0.5, and at most the number of bins |
| AnalyzeDensity.ReachMonotone | code/analyze_density.py:105 | a longer reach never counts fewer bins |
| Blocks.BlockOfSplice | code/src/scripts/align_kabsch.py:91 | writing fragment i back changes no other fragment and reads back as written |
| Blocks.WriteBlock | code/src/scripts/align_kabsch.py:67-91 | the slice assignment replaces the rows from `begin` on by the new rows and leaves every other row |
| Blocks.MappedOutcome | code/src/scripts/align_kabsch.py:73-91 | a loop that maps fragments 1 .. fragments-1 after fragment 0 was replaced leaves every fragment replaced by its image and the trailing rows untouched |
| Blocks.ColumnOutcome | code/src/scripts/align_kabsch.py:84-88 | the per-fragment column the same loop fills holds the first entry for fragment 0 and the image of every later fragment |
| Blocks.NegativeMeanZIsMean | code/src/scripts/align_kabsch.py:62-81 | for a non-empty fragment the sign test on the z sum is the test `A[:, 2].mean() < 0` |
| Blocks.MirrorZSum | code/src/scripts/align_kabsch.py:64-83 | negating every z negates the z sum |
| Blocks.MirrorIfNeededSpec | code/src/scripts/align_kabsch.py:61-64 | afterwards the mean z is not negative; x and y never change; z is negated exactly when the mean was negative; a second application changes nothing |
| Blocks.MirrorIfNeededKeepsDistances | code/src/scripts/align_kabsch.py:61-64 | mirroring keeps every pairwise distance |
| Blocks.MirrorRows | code/align_rotations.py:54-57 | the array ends mirrored if its mean z was negative, and the result says whether it was |
| Blocks.TileAt | code/src/scripts/align_kabsch.py:120 | entry i of `label_list * fragments` is entry i mod the list length |
| Blocks.RepeatEachAt | code/src/scripts/align_kabsch.py:116 | entry i of `np.repeat(ids, no_atoms)` is id i div no_atoms |
| CentralAverage.CentralRows | code/src/scripts/helpers/geometry_helpers.py:209 | a row is kept exactly when it is a row of the frame whose label is not '-' |
| CentralAverage.ValueCountsTotal | code/src/scripts/helpers/geometry_helpers.py:212 | the counts of `value_counts()` of the R-position symbols add up to the number of those symbols |
| CentralAverage.ValueCounts | code/src/scripts/helpers/geometry_helpers.py:212 | `value_counts()`: one entry per distinct symbol, every symbol present, each with its number of occurrences |
| CentralAverage.CountedNew | code/src/scripts/helpers/geometry_helpers.py:212 | counting one value new to the listed symbols, with that symbol listed, adds one to the total |
| CentralAverage.RSymbolsPresent | code/src/scripts/helpers/geometry_helpers.py:212-214 | a central row whose label contains "R" makes `counts` non-empty, so the averaging branch runs |
| CentralAverage.RSymbols | code/src/scripts/helpers/geometry_helpers.py:212 | the symbols are exactly those of the rows whose label contains "R" |
| CentralAverage.AddCounts | code/src/scripts/helpers/geometry_helpers.py:229-234 | the loop succeeds exactly when both radii of every counted symbol can be read, fails with the missing-radius error otherwise, and yields the total count and the two count-weighted radius sums |
| CentralAverage.RAverageValue | code/src/scripts/helpers/geometry_helpers.py:211-236 | no average exactly when no central label contains "R"; otherwise a value exactly when every radius can be read |
| CentralAverage.RAverage | code/src/scripts/helpers/geometry_helpers.py:211-236 | the loop computes `RAverageValue`: the count-weighted mean vdW and covalent radius of the R-position symbols |
| CentralAverage.RAverageBetween | code/src/scripts/helpers/geometry_helpers.py:229-236 | the averaged R vdW radius lies between the smallest and largest vdW radius of the symbols found on R positions |
| CentralAverage.GroupedAt | code/src/scripts/helpers/geometry_helpers.py:240-243 | group k has label k, the symbol of the first row with that label and the mean position of all rows with that label |
| CentralAverage.Grouped | code/src/scripts/helpers/geometry_helpers.py:240-243 | one aggregated row per label, in the order of the labels |
| CentralAverage.RadiiFor | code/src/scripts/helpers/geometry_helpers.py:255-261 | a label containing "R" gets the R averages (and fails exactly when there are none); any other row gets the table radii of its symbol (and fails exactly when they are missing); label, symbol and position are kept |
| CentralAverage.AssignRadii | code/src/scripts/helpers/geometry_helpers.py:252-261 | the row loop over an array succeeds exactly when every row can be assigned, leaves each row with its radii, and otherwise reports the failure of some row |
| CentralAverage.RadiiFrame | code/src/scripts/helpers/geometry_helpers.py:252-261 | the grouped rows copied into a new frame succeed exactly when every row can be assigned, and then hold every row with its radii |
| CentralAverage.AverageFragment | code/src/scripts/helpers/geometry_helpers.py:206-263 | succeeds exactly when the R average can be read and every grouped row's radii can be assigned (`AverageAssignable`); a success is the central rows grouped by label in order of first appearance, each with its radii; the missing-R-average error never occurs |
| CentralAverage.RAverageFound | code/src/scripts/helpers/geometry_helpers.py:212-258 | every grouped label containing "R" comes from a row on an R position, so `avg_vdw` is always defined when lines 257-258 read it |
| CentralAverage.UniqueLabels | code/src/scripts/helpers/geometry_helpers.py:240-243 | every label of the grouping is the label of some central row, so each group has rows to average |
| CentralAverage.ReadAll | code/src/scripts/helpers/geometry_helpers.py:232-234 | radii read one by one for every counted symbol mean all radii are known, and they are exactly the table radii of those symbols |
| CheckCoordData.CountFragmentsPerEntry | code/check_coord_data.py:24-40 | the loop builds exactly the dictionary `Tally` of the lines, keys in insertion order |
| CheckCoordData.TallyWellFormed | code/check_coord_data.py:28-38 | the keys are listed once each, in the order they were first seen |
| CheckCoordData.TallyCounts | code/check_coord_data.py:30-38 | `Tally`: every entry's count is the number of "FRAG" lines of that entry, so other lines play no part, and every key has a count of at least 1 |
| CheckCoordData.TallyKeysFromLines | code/check_coord_data.py:31-33 | every key is the stripped first `**` field of some "FRAG" line |
| CheckCoordData.TotalBump | code/check_coord_data.py:36 | raising a listed key's count by one raises `sum(d.values())` by one |
| CheckCoordData.BumpTotal | code/check_coord_data.py:35-38 | counting one more fragment of an entry, new or old, raises the total by one |
| CheckCoordData.TallyTotal | code/check_coord_data.py:13 | the counts add up to the number of lines containing "FRAG": every fragment is counted once |
| CheckCoordData.CrowdedSnoc | code/check_coord_data.py:16-18 | one more entry joins the crowded ones exactly when its count exceeds one |
| CheckCoordData.EntriesMoreThanOne | code/check_coord_data.py:15-18 | the loop counts exactly the entries whose count exceeds one |
| ClosedBins.SameCube | code/calc_density_4.py:85-87 | the closed cube this file checks a point against is the one the later density helpers use |
| ClosedBins.AddPoint | code/calc_density_4.py:85-89 | every bin whose closed cube holds the point gains one and every other bin keeps its count |
| ClosedBins.FillBins | code/calc_density_4.py:82-91 | afterwards each bin holds its old count plus the number of points in its closed cube |
| ClosedBins.CountPointsPerSquare | code/calc_density_4.py:63-79 | one count per bin, starting from zero: the number of points in that bin's closed cube |
| ClosedBins.HitsBelowContaining | code/calc_density_4.py:85-87 | a bin's closed count is at least the number of points whose first bin it is |
| ClosedBins.ClosedCountsCover | code/calc_density_4.py:84-89 | when every point lies in some bin the closed counts add up to at least the number of points (and more when a point sits on a shared face) |
| ClosedBins.DoubleCounted | code/calc_density_4.py:84-89 | bins at the origin and at (1, 0, 0), resolution 1: the point (1, 0, 0) is in both closed cubes, so one point is counted twice, while first-match counting gives it to the first bin only |
| ContactGeometry.ContactRows | code/src/scripts/helpers/geometry_helpers.py:19 | a row is kept exactly when it is a row of the frame labelled '-' |
| ContactGeometry.FragmentRows | code/src/scripts/helpers/geometry_helpers.py:21 | a row is kept exactly when it belongs to the given fragment id |
| ContactGeometry.WithSymbol | code/src/scripts/helpers/geometry_helpers.py:31-39 | a row is kept exactly when it carries the given symbol |
| ContactGeometry.FragmentRowsPresent | code/src/scripts/helpers/geometry_helpers.py:29 | every fragment id of the frame has at least one row, so each group mean is defined |
| ContactGeometry.CentroidsAt | code/src/scripts/helpers/geometry_helpers.py:29 | the k-th centroid belongs to the k-th fragment id and lies at the mean position of that fragment's rows |
| ContactGeometry.Centroids | code/src/scripts/helpers/geometry_helpers.py:29 | one centroid per fragment id asked for, the k-th belonging to the k-th id |
| ContactGeometry.ClosestUnique | code/src/scripts/helpers/geometry_helpers.py:96-102 | the closest distance and the radius that goes with it are determined by the point and the averaged fragment |
| ContactGeometry.ClosestAtom | code/src/scripts/helpers/geometry_helpers.py:91-102 | a radius is found exactly when some atom is nearer than the start value 1000000000; it is then the radius of the first atom at the least distance; otherwise the distance stays at the start value |
| ContactGeometry.PDistCalc | code/src/scripts/helpers/geometry_helpers.py:83-107 | every contact point gets a radius exactly when some atom is nearer than the start value, and then both arrays hold, at each index, that point's closest distance and its radius |
| ContactGeometry.DistancesClosestVdwCentral | code/src/scripts/helpers/geometry_helpers.py:60-80 | succeeds exactly when every point is reachable, and then keeps every point in order with its closest distance and radius |
| ContactGeometry.FirstMinimum | code/src/scripts/helpers/geometry_helpers.py:48 | `idxmin` within one group: an index of a least distance, with every earlier distance strictly larger (first on ties) |
| ContactGeometry.FragmentMeasuredPresent | code/src/scripts/helpers/geometry_helpers.py:48 | every fragment id among the measured points has a non-empty group |
| ContactGeometry.ClosestPick | code/src/scripts/helpers/geometry_helpers.py:48-49 | the pick for a fragment id is the point `FirstMinimum` chooses within that fragment's points |
| ContactGeometry.ClosestAt | code/src/scripts/helpers/geometry_helpers.py:48-49 | the pick for a fragment id is one of that fragment's measured points, and no point of that fragment is nearer |
| ContactGeometry.ClosestPerFragmentSpec | code/src/scripts/helpers/geometry_helpers.py:46-49 | each kept point is a measured point no farther than any other point of its fragment; the kept fragment ids are strictly ascending, so distinct, and a fragment id is kept exactly when it was measured |
| ContactGeometry.ClosestPerFragment | code/src/scripts/helpers/geometry_helpers.py:46-49 | `groupby('fragment_id').distance.idxmin()`: the kept fragment ids are each measured id once, in ascending order |
| ContactGeometry.FirstFragment | code/src/scripts/helpers/geometry_helpers.py:21 | the contact rows of the first fragment id to appear, and only those |
| ContactGeometry.ChooseSelection | code/src/scripts/helpers/geometry_helpers.py:26-42 | centroids exactly when 'centroid' is asked for; all points of the symbol exactly when the first fragment holds that symbol once; nearest per fragment otherwise |
| ContactGeometry.SelectionFromFirst | code/src/scripts/helpers/geometry_helpers.py:21-31 | appending rows of other fragments never changes the choice: only the first fragment decides |
| ContactGeometry.SelectPoints | code/src/scripts/helpers/geometry_helpers.py:29-39 | for centroids one point per fragment id, in ascending id order as `groupby` sorts them; otherwise the rows of the counted symbol, in frame order |
| ContactGeometry.SelectPointsCentroids | code/src/scripts/helpers/geometry_helpers.py:29 | `groupby("fragment_id").mean()`: each contact fragment id gets one point, the ids strictly ascending, each point at the mean of its fragment's rows |
| ContactGeometry.LongestVdwAsWritten | code/src/scripts/helpers/geometry_helpers.py:28-38 | the call as written: the carbon radius for centroids, and the argument-count failure otherwise |
| ContactGeometry.LongestVdw | code/src/scripts/classes/Radii.py:32-37 | the vdW radius of carbon for centroids, of the counted symbol otherwise; a value is a radius of a row of the radii table with that symbol |
| ContactGeometry.LongestVdwMismatch | code/src/scripts/helpers/geometry_helpers.py:32 | with one oxygen row and oxygen counted, the call as written fails while the one-argument lookup gives 1.52 |
| ContactGeometry.LongestVdwAgrees | code/src/scripts/helpers/geometry_helpers.py:28 | the written and the intended lookup agree when centroids are counted |
| ContactGeometry.WithLongest | code/src/scripts/helpers/geometry_helpers.py:51 | every measured point is kept in order and gets the same `longest_vdw` |
| ContactGeometry.MeasuredUnique | code/src/scripts/helpers/geometry_helpers.py:60-80 | only one list of measurements fits a list of points |
| ContactGeometry.Keep | code/src/scripts/helpers/geometry_helpers.py:46-49 | all measured points unless the nearest per fragment is asked for; then one per measured fragment id, in ascending id order |
| ContactGeometry.MakeCoordinateDf | code/src/scripts/helpers/geometry_helpers.py:11-57 | fails without contact rows or without the radius; on success the rows are the selected points (centroids and nearest-per-fragment in ascending fragment id order, symbol rows in frame order), measured, kept as the selection says and given `longest_vdw`; success exactly when every selected point is reachable |
| DensityGrid.Ceil | src/scripts/helpers/density_helpers.py:23-24 | `math.ceil` of a non-negative real: the least whole number not below it |
| DensityGrid.CeilCovers | src/scripts/helpers/density_helpers.py:23-24 | `ceil(x / r)` bins of width r reach at least x |
| DensityGrid.CalculateNoBins | src/scripts/helpers/density_helpers.py:18-31 | at least one bin; the bins tile the adjusted range exactly (maximum - minimum = count * resolution); the adjusted range strictly contains the given limits |
| DensityGrid.BinsReach | src/scripts/helpers/density_helpers.py:23-26 | `ceil(abs(min)/res)` bins below and `ceil(abs(max)/res)` above the origin bin reach past both limits |
| DensityGrid.StartsSpaced | src/scripts/helpers/density_helpers.py:134-136 | on an axis from `calculate_no_bins`, `linspace(min, max, num=no_bins, endpoint=False)` puts the k-th start at min + k * resolution: the starts are exactly one resolution apart |
| DensityGrid.Linspace | src/scripts/helpers/density_helpers.py:134-136 | `linspace(..., num, endpoint=False)` gives `num` values; their spacing is stated by `DensityGrid.StartsSpaced` |
| DensityGrid.OriginIsCentre | src/scripts/helpers/density_helpers.py:28-29 | some bin starts at -res/2, so the origin is the centre of a bin |
| DensityGrid.AddBoundariesPerBin | src/scripts/helpers/density_helpers.py:144-161 | one row per combination of an x, a y and a z start |
| DensityGrid.BoundariesAt | src/scripts/helpers/density_helpers.py:151-153 | row (a * yl + b) * zl + c holds x start a, y start b and z start c: x varies slowest and z fastest |
| DensityGrid.GridStarts | src/scripts/helpers/density_helpers.py:144-153 | one bin start per combination of axis starts; which start sits at which row is stated by `DensityGrid.BoundariesAt` |
| DensityGrid.MinOf | src/scripts/helpers/density_helpers.py:121 | `Series.min()`: no entry is smaller, and some entry equals it |
| DensityGrid.MaxOf | src/scripts/helpers/density_helpers.py:120 | `Series.max()`: no entry is larger, and some entry equals it |
| DensityGrid.FirstBin | src/scripts/helpers/density_helpers.py:98-104 | with the closed-cube test `InBin`: `idx[0][0]`: the lowest-index bin whose closed cube holds the point, or none when no bin holds it |
| DensityGrid.AxisIndex | src/scripts/helpers/density_helpers.py:18-31 | a value within the limits lies in some bin of the axis built for those limits |
| DensityGrid.WithinExtent | src/scripts/helpers/density_helpers.py:120-121 | each coordinate of a point lies between the minimum and the maximum of its column |
| DensityGrid.GridCovers | src/scripts/helpers/density_helpers.py:117-141 | over the axes `GridAxes` computes: every point lies in some bin of the grid `prepare_df` builds from the points |
| DensityGrid.PrepareDf | src/scripts/helpers/density_helpers.py:117-141 | fails exactly when there are no points (the minimum of an empty column); otherwise every point lies in some bin of the grid |
| DensityGrid.FillBins | src/scripts/helpers/density_helpers.py:84-114 | each point adds one to the lowest-index bin holding it and a point in no bin adds nothing: the array becomes `Filled` of its old contents |
| DensityGrid.FilledAt | src/scripts/helpers/density_helpers.py:98-109 | after counting, bin k holds its old count plus the number of points whose first bin it is |
| DensityGrid.Hits | src/scripts/helpers/density_helpers.py:98-109 | a bin is hit by at most every point; `DensityGrid.FilledAt` says which points |
| DensityGrid.Filled | src/scripts/helpers/density_helpers.py:84-110 | `fill_bins` keeps the number of bins; `DensityGrid.FilledAt` and `DensityGrid.FilledSum` give each count and the total |
| DensityGrid.FilledSum | src/scripts/helpers/density_helpers.py:84-114 | counting adds one to the total per point that lies in some bin, no more |
| DensityGrid.MatchedAll | src/scripts/helpers/density_helpers.py:102-109 | every point is counted exactly when each lies in some bin |
| DensityGrid.CountDataPointsPerBin | src/scripts/helpers/density_helpers.py:60-81 | the assertion holds exactly when every point lies in some bin; the counts then total the number of points and bin k holds the points whose first bin it is |
| DensityGrid.Normalise | src/scripts/helpers/density_helpers.py:51-52 | defined exactly when the total is non-zero; each fraction is then its count over the total, and the fractions sum to 1 |
| DensityGrid.NormaliseBounds | src/scripts/helpers/density_helpers.py:51-52 | with non-negative counts every fraction lies in [0, 1], is positive exactly for a positive count, and fractions are ordered as the counts are |
| DensityGrid.MakeDensityDf | src/scripts/helpers/density_helpers.py:34-57 | succeeds exactly when there are points; the grid is then the one `prepare_df` builds, the counts total the number of points, bin k holds the points whose first bin it is, each fraction is its count over the number of points, and the fractions sum to 1 |
| LegacyDensity.CalculateNoBins | code/src/scripts/helpers/density_helpers.py:10-23 | at least one bin; the adjusted bounds are whole multiples of the resolution around the origin and span count - 1 bins, not count |
| LegacyDensity.LinspaceAt | code/src/scripts/helpers/density_helpers.py:37-39 | entry k of `linspace(start, stop, num, endpoint=False)` is start + k * (stop - start) / num |
| LegacyDensity.StartsSpacing | code/src/scripts/helpers/density_helpers.py:18-39 | consecutive starts lie (n - 1) * res / n apart, strictly less than the resolution, so bins of width res overlap |
| LegacyDensity.OverlappingBins | code/src/scripts/helpers/density_helpers.py:18-39 | resolution 1 and points from -1 to 1: the starts are -1, -1/3 and 1/3, and -0.2 lies in both of the first two bins |
| LegacyDensity.PrepareDf | code/src/scripts/helpers/density_helpers.py:26-44 | fails exactly when there are no points; otherwise one start per combination of the axis bins |
| LegacyDensity.BinsInVdw | code/src/scripts/helpers/density_helpers.py:92-142 | a volume is produced only for a non-empty model, and it is never negative |
| LegacyDensity.CountBinsInVdw | code/src/scripts/helpers/density_helpers.py:92-142 | the grid, the marking loop and the volume compute exactly `BinsInVdw` |
| LegacyDensity.PartDensityComplete | code/src/scripts/helpers/density_helpers.py:125-127 | a filter that keeps as many centres as it is given keeps them all, in order |
| LegacyDensity.CentreInside | code/src/scripts/helpers/density_helpers.py:121-127 | with at least three bins, every bin centre lies strictly inside the axis bounds |
| LegacyDensity.BinsInVdwDefined | code/src/scripts/helpers/density_helpers.py:125-142 | with at least three bins on every axis no bin is dropped by the filter, so the volume is defined |
| LegacyDensity.AvailableSpec | code/src/scripts/helpers/density_helpers.py:145-160 | defined exactly when the volumes it needs are; the failure is that of one of the three calls; the value is `volume_max` with `total`, and `volume_max - (volume_central - volume_R_min / 2)` otherwise |
| LegacyDensity.FindAvailableVolume | code/src/scripts/helpers/density_helpers.py:145-160 | calls the three volume computations as the source does and returns `Available` of them |
| LegacyDensity.AvailableOk | code/src/scripts/helpers/density_helpers.py:152-160 | the final return, with `volume_R_min` 0 when there is no R atom, is the value `Available` describes |
| DensityVolume.FindMinMaxBounds | src/scripts/helpers/density_helpers.py:180-190 | one box per atom |
| DensityVolume.BallInBox | src/scripts/helpers/density_helpers.py:180-190 | every point strictly within `vdw_radius + extra` of an atom lies strictly inside that atom's box, so the grid over the boxes reaches every bin the marking can flag |
| DensityVolume.RowFromAxes | src/scripts/helpers/density_helpers.py:214-218 | every grid row is made of starts of the three axes |
| DensityVolume.CentreInside | src/scripts/helpers/density_helpers.py:221-227 | on an axis from `calculate_no_bins` every bin centre lies strictly inside the adjusted bounds |
| DensityVolume.PartDensityKeepsAll | src/scripts/helpers/density_helpers.py:225-229 | in exact arithmetic `part_density` keeps every bin of the grid |
| DensityVolume.PartDensity | src/scripts/helpers/density_helpers.py:225-229 | a bin centre is kept exactly when it lies strictly inside the bounds on every axis |
| DensityVolume.NearIff | src/scripts/helpers/density_helpers.py:172-174 | with a true square root the distance test is the squared-distance test against a positive reach |
| DensityVolume.Unflagged | src/scripts/helpers/density_helpers.py:234 | `np.where(in_vdw_vol == 0)`: exactly the positions of the unmarked bins |
| DensityVolume.CalcDistances | src/scripts/helpers/density_helpers.py:164-177 | a listed bin becomes marked exactly when its centre is within reach of the atom; no mark is ever removed and unlisted bins keep theirs |
| DensityVolume.CountMarks | src/scripts/helpers/density_helpers.py:240 | marks that are exactly the covered centres count the covered centres |
| DensityVolume.CountCovered | src/scripts/helpers/density_helpers.py:240 | at most one count per centre |
| DensityVolume.CountCoveredExtremes | src/scripts/helpers/density_helpers.py:233-240 | no centre is counted exactly when none is within reach of an atom, and every centre exactly when each one is |
| DensityVolume.CoveredNext | src/scripts/helpers/density_helpers.py:233-238 | covered by the first i + 1 atoms means covered by the first i or by atom i |
| DensityVolume.MarkBins | src/scripts/helpers/density_helpers.py:231-240 | the loop over the atoms marks exactly the bins whose centre lies within reach of some atom, and returns their number |
| DensityVolume.BinVolume | src/scripts/helpers/density_helpers.py:242 | `total * resolution**3` is non-negative and zero exactly when no bin is marked |
| DensityVolume.CalcVdwVolCentral | src/scripts/helpers/density_helpers.py:193-242 | fails exactly for an empty model (the NaN bounds); otherwise the volume of the bins whose centre lies within reach of some atom |
| DensityVolume.UpperLabels | src/scripts/helpers/density_helpers.py:248 | every label upper-cased, everything else kept |
| DensityVolume.SplitR | src/scripts/helpers/density_helpers.py:249-250 | `WithoutR` holds exactly the atoms whose label has no "R" and `OnlyR` exactly those whose label has one, so every atom is in exactly one of them and their sizes add up |
| DensityVolume.AvailableWithoutR | src/scripts/helpers/density_helpers.py:255-263 | `AvailableVolume`: without R atoms the available volume is the volume reached with `extra` less the bare volume of the same atoms |
| DensityVolume.WithoutR | src/scripts/helpers/density_helpers.py:249 | `~label.str.contains("R")`: never more atoms than the model; `DensityVolume.SplitR` states which ones |
| DensityVolume.OnlyR | src/scripts/helpers/density_helpers.py:250 | `label.str.contains("R")`: never more atoms than the model; `DensityVolume.SplitR` states which ones |
| DensityVolume.NoRKept | src/scripts/helpers/density_helpers.py:249 | atoms none of which has an R label are all kept |
| DensityVolume.FindAvailableVolume | src/scripts/helpers/density_helpers.py:245-263 | succeeds exactly when the volumes it needs have atoms; the value is then `AvailableVolume`: with `total` the whole model reached with `extra`, otherwise `volume_max - (volume_central - volume_R_min / 2)` |
| FingerprintPlots.RowsFor | src/scripts/classes/Fingerprint.py:37-38 | only rows of the given central group are kept, in file order |
| FingerprintPlots.RowsForComplete | src/scripts/classes/Fingerprint.py:38 | every row of the central group is kept |
| FingerprintPlots.Fingerprint.constructor | src/scripts/classes/Fingerprint.py:22-38 | the counter starts at -1 and the plots are the rows of the central group |
| FingerprintPlots.Fingerprint.GetLabels | src/scripts/classes/Fingerprint.py:51-57 | "" for the first plot; otherwise the labels of the current row, failing exactly when the counter is past the rows (`.item()` of nothing) |
| FingerprintPlots.Fingerprint.GetLabelList | src/scripts/classes/Fingerprint.py:59-62 | defined exactly for a counter on a row; the pieces contain no '&' and joined with '&' give back the row's labels |
| FingerprintPlots.Fingerprint.GetDescription | src/scripts/classes/Fingerprint.py:64-70 | "closest atom" for the first plot; otherwise the description of the current row, failing exactly when the counter is past the rows |
| FingerprintPlots.Fingerprint.NotDone | src/scripts/classes/Fingerprint.py:72-75 | true exactly while the counter is below the number of rows |
| FingerprintPlots.Fingerprint.Next | src/scripts/classes/Fingerprint.py:77-80 | the counter goes up by one |
| FingerprintPlots.LookupsWhileNotDone | src/scripts/plot_fingerprint.py:61-63 | while plots are left every lookup the loop makes succeeds |
| FingerprintPlots.PlotAll | src/scripts/plot_fingerprint.py:57-73 | the walk plots "" first and then the labels of every row in order, and ends with the counter at the number of rows |
| Fragments.NewAtom | code/classes/Atom.py:4-18 | keeps the label and coordinates; the symbol is the label's first character exactly when its second is a digit, otherwise its first two; `lablabel` is '-', the atom is not central and has no colour, id or radii yet |
| Fragments.AddToCentralGroup | code/classes/Atom.py:20-21 | sets the central-group flag, changes nothing else, and is idempotent |
| Fragments.SetColor | code/classes/Atom.py:23-24 | only the colour changes, to the given one |
| Fragments.AddFragmentId | code/classes/Atom.py:26-27 | only the fragment id changes, to the given one |
| Fragments.SetVdwRadius | code/classes/Atom.py:29-30 | only the van der Waals radius changes, to the given one |
| Fragments.SetCovRadius | code/classes/Atom.py:32-33 | only the covalent radius changes, to the given one |
| Fragments.OnlyMovedTrans | code/classes/Fragment.py:16-47 | moves compose: across several of them only coordinates change |
| Fragments.CheckIfLabelExists | code/helpers/general_helpers.py:1-8 | the atom gets the first label, from its own with 'a' appended as often as needed, that no atom of the fragment uses; nothing else changes |
| Fragments.SumZ | code/classes/Fragment.py:20-23 | the loop adds up exactly the z of every atom |
| Fragments.MirrorTable | code/classes/Fragment.py:27-32 | the loop changes only coordinates and negates every z (negative to its absolute value, positive to z - 2z, zero kept) |
| Fragments.ShiftOthers | code/classes/Fragment.py:43-47 | every atom other than the center is shifted by the move; the center keeps its coordinates |
| Fragments.ShiftTable | code/classes/Fragment.py:38-47 | the center goes to the origin and the positions become the translation of the fragment by minus the center |
| Fragments.ShiftedIsTranslation | code/classes/Fragment.py:40-47 | setting the center to the origin and shifting every other atom by minus its old coordinates is the translation that puts the center on the origin |
| Fragments.RotateTable | code/helpers/rotation_helpers.py:78-92 | every atom's coordinates are multiplied by the rotation matrix, nothing else changes |
| Fragments.CoversCount | code/classes/Fragment.py:24 | `len(self.atoms)` equals the length of the insertion order |
| Fragments.Fragment.constructor | code/classes/Fragment.py:2-8 | the id is the entry followed by the fragment number, the colour is "red", and there are no atoms |
| Fragments.Fragment.AddAtom | code/classes/Fragment.py:10-11 | the atom is stored under its label, replacing an earlier one; a new label joins the end of the insertion order |
| Fragments.Fragment.DefineCentralGroup | code/classes/Fragment.py:13-14 | the named atom gets the central-group flag and nothing else changes |
| Fragments.Fragment.MeanZ | code/classes/Fragment.py:20-24 | the mean z of the atoms in insertion order |
| Fragments.Fragment.InvertIfNecessary | code/classes/Fragment.py:16-32 | only coordinates change, and the positions become the fragment mirrored in z when its mean z is negative, unchanged otherwise |
| Fragments.Fragment.CenterCoordinates | code/classes/Fragment.py:34-47 | the named atom becomes the center atom at the origin and every atom moves by the same vector; only coordinates change |
| Fragments.Fragment.CalculateRotation | code/helpers/rotation_helpers.py:78-92 | every atom is rotated about the axis and only coordinates change |
| Fragments.Fragment.PerformRotations | code/helpers/rotation_helpers.py:4-22 | the positions become the three canonicalising rotations by the two named atoms; only coordinates change |
| LoadAndAlign.Opened | code/1_load_from_coords.py:111-113 | a header opens an empty fragment whose entry is the first field and whose id is the entry followed by the fragment number |
| LoadAndAlign.Added | code/1_load_from_coords.py:129 | adding an atom stores it under its label; only a new label joins the insertion order |
| LoadAndAlign.ReadAtom | code/1_load_from_coords.py:122-125 | an atom line has at least four words and the atom's label is the first word without its '%' marks |
| LoadAndAlign.ReadLine | code/1_load_from_coords.py:111-125 | a line containing "FRAG" is read as a header, any other line as an atom |
| LoadAndAlign.RunFrom | code/1_load_from_coords.py:109-129 | the loop over lines from `i` is one step and then the loop from `i + 1` |
| LoadAndAlign.HeaderCount | code/1_load_from_coords.py:111-119 | there are no more headers than lines |
| LoadAndAlign.RunCountsFragments | code/1_load_from_coords.py:109-131 | each header opens exactly one fragment, no other line opens any, and fragments already closed stay as they were |
| LoadAndAlign.LoadCountsFragments | code/1_load_from_coords.py:102-134 | `Load`: `load_fragments_from_coords` returns one fragment per "FRAG" line |
| LoadAndAlign.StepAtom | code/1_load_from_coords.py:125-129 | an atom line stores one new atom under a label no atom of the fragment had, at the end of the order, and keeps the fragment sound |
| LoadAndAlign.RunSound | code/1_load_from_coords.py:109-131 | the loop keeps every fragment sound: labels listed once, each atom stored under its own label |
| LoadAndAlign.LoadSound | code/1_load_from_coords.py:102-134 | within every parsed fragment labels are unique and each atom sits under its own label |
| LoadAndAlign.RunStops | code/1_load_from_coords.py:109-129 | a line that cannot be read, or an atom before any header, stops the loop with that error |
| LoadAndAlign.BuiltAppend | code/1_load_from_coords.py:115-131 | appending one more fresh object that holds one more parsed fragment keeps the objects in step with the parse |
| LoadAndAlign.Apply | code/1_load_from_coords.py:110-129 | the loop body on objects: a header closes the current `Fragment` and makes a new one, an atom is stored in the current one; the objects keep holding the parse |
| LoadAndAlign.LoadFragmentsFromCoords | code/1_load_from_coords.py:102-134 | either the parse's error, or new distinct `Fragment` objects holding exactly the parsed fragments |
| LoadAndAlign.ReadLines | code/1_load_from_coords.py:105-131 | the loop over lines gives the first error, or objects holding the fragments closed so far and the open one |
| LoadAndAlign.ReadLineAt | code/1_load_from_coords.py:110-129 | one iteration on line `i` is one step of the parse, or its error |
| LoadAndAlign.LabelColumns | code/1_load_from_coords.py:38-43 | every column kept contains "LAB", and there are no more of them than columns |
| LoadAndAlign.NewLabel | code/1_load_from_coords.py:70-73 | the new label is "R" followed by `j + 1` for the R column, the atom's symbol followed by `j + 1` otherwise |
| LoadAndAlign.RelabelTable | code/1_load_from_coords.py:56-73 | the column loop on a fragment's atom table computes the relabelling, or fails on the first missing atom |
| LoadAndAlign.RenamedTrans | code/1_load_from_coords.py:56-73 | renaming and flagging twice is renaming and flagging |
| LoadAndAlign.RelabelColumnSpec | code/1_load_from_coords.py:58-73 | one column flags and relabels the one atom its row names, makes its capture, and leaves every other atom as it was |
| LoadAndAlign.RelabelFromOk | code/1_load_from_coords.py:56-59 | the column loop succeeds if and only if every column names an atom of the fragment (`KeyError` otherwise) |
| LoadAndAlign.RelabelFromSpec | code/1_load_from_coords.py:56-73 | the column loop only renames and flags atoms, flags every atom a column names, and leaves every other atom as it was |
| LoadAndAlign.RelabelFromNames | code/1_load_from_coords.py:56-73 | when no two columns name the same atom, the atom keys stay the same and every named atom ends with its column's new label |
| LoadAndAlign.CaptureStep | code/1_load_from_coords.py:62-67 | one column step changes no other column's capture and the column is not seen again |
| LoadAndAlign.RelabelFromCapturesCenter | code/1_load_from_coords.py:62-63 | the center capture is the label the center column's atom had before the loop, or the carried one |
| LoadAndAlign.RelabelFromCapturesYAxis | code/1_load_from_coords.py:64-65 | the y-axis capture is the label of the y-axis column's atom unless that column is also the center column |
| LoadAndAlign.RelabelFromCapturesXyPlane | code/1_load_from_coords.py:66-67 | the xy-plane capture is the label of its column's atom unless that column is the center or the y-axis column |
| LoadAndAlign.Plan | code/1_load_from_coords.py:56-77 | a successful plan keeps the atom keys and captures a center, a y-axis and an xy-plane label that are all atoms of the fragment |
| LoadAndAlign.PlanIsRelabel | code/1_load_from_coords.py:56-73 | a successful plan is the relabelling |
| LoadAndAlign.PlanTable | code/1_load_from_coords.py:56-77 | the column loop followed by the three lookups, which fail when a capture was never made or names no atom |
| LoadAndAlign.AlignedPositions | code/1_load_from_coords.py:76-79 | centering, the three rotations and the mirror move every atom and keep their number |
| LoadAndAlign.AlignedCanonical | code/1_load_from_coords.py:76-79 | with decisive rotations the center is at the origin, the y-axis atom on the non-negative x-axis, the xy-plane atom in the xy-plane with y >= 0, and the z sum is non-negative |
| LoadAndAlign.AlignedKeepsDistances | code/1_load_from_coords.py:76-79 | the alignment keeps every distance between two atoms |
| LoadAndAlign.Rows | code/1_load_from_coords.py:86-90 | line `k` holds the fragment id, the entry, and the `k`-th atom's label, symbol, central-group flag and the given coordinates |
| LoadAndAlign.CsvRows | code/1_load_from_coords.py:86-90 | `write_fragment_to_csv` writes one line per atom, in insertion order, with id, entry, label, symbol, flag and coordinates |
| LoadAndAlign.RowsOnlyMoved | code/1_load_from_coords.py:86-90 | moving atoms changes only the coordinates in the csv lines |
| LoadAndAlign.RowPositions | code/1_load_from_coords.py:89-90 | the coordinates column has one entry per line, that line's coordinates |
| LoadAndAlign.CenterAndRotate | code/1_load_from_coords.py:76-77 | `center_coordinates` then `perform_rotations` on the object: only coordinates change, to the translated and rotated positions |
| LoadAndAlign.Place | code/1_load_from_coords.py:76-79 | the moves on the object: only coordinates change, to the aligned positions |
| LoadAndAlign.AlignFragment | code/1_load_from_coords.py:54-81 | the loop body on a `Fragment` object gives what the model of the body gives, and on success its lines are the csv lines of the object as it ends |
| LoadAndAlign.RowAt | code/1_load_from_coords.py:54 | the row of fragment `i` is row `i` of the table, or empty past its end |
| LoadAndAlign.AlignFromStep | code/1_load_from_coords.py:52-81 | a failing fragment ends the loop with its exception; otherwise its lines come before the rest |
| LoadAndAlign.ThenNothing | code/1_load_from_coords.py:52-81 | nothing written before leaves the rest unchanged |
| LoadAndAlign.AlignFromEnd | code/1_load_from_coords.py:52 | past the last fragment nothing more is written |
| LoadAndAlign.BuiltCovers | code/1_load_from_coords.py:102-134 | fragments the loader built list every label once |
| LoadAndAlign.ThenThen | code/1_load_from_coords.py:81 | lines written in two batches are the two batches in order |
| LoadAndAlign.AlignAt | code/1_load_from_coords.py:53-81 | aligning fragment `i` gives the model's outcome and leaves the fragments after it untouched |
| LoadAndAlign.AlignFragments | code/1_load_from_coords.py:52-81 | the loop over the fragment objects writes exactly the model's lines, or stops with its first exception |
| LoadAndAlign.AlignCoordinateFile | code/1_load_from_coords.py:23-83 | `main` after the arguments: load, relabel and align every fragment, with the model's outcome |
| LoadAndAlign.AlignFromCount | code/1_load_from_coords.py:52-81 | the aligned csv file has one line per atom |
| LoadAndAlign.RenamedPositions | code/1_load_from_coords.py:56-73 | relabelling does not move atoms |
| LoadAndAlign.PlanCaptures | code/1_load_from_coords.py:56-67 | with distinct alignment columns naming distinct atoms, the plan succeeds if and only if every column names an atom, and then captures exactly the labels the row gives |
| LoadAndAlign.CapturedLabels | code/1_load_from_coords.py:56-67 | the column loop over atoms stored under their own labels captures the labels the row gives for the three alignment columns |
| LoadAndAlign.AlignParsedPositions | code/1_load_from_coords.py:56-81 | the coordinates written are the parsed coordinates aligned around the captured center, y-axis and xy-plane atoms |
| LoadAndAlign.WrittenPositions | code/1_load_from_coords.py:76-90 | the coordinates written for the renamed atoms are the aligned parsed coordinates |
| LoadAndAlign.RowsPositions | code/1_load_from_coords.py:89-90 | the coordinates column of the lines written at given positions is those positions |
| LoadAndAlign.PlanRenamed | code/1_load_from_coords.py:56-73 | a successful plan only renames and flags atoms |
| LoadAndAlign.AlignParsedCanonical | code/1_load_from_coords.py:56-81 | with distinct alignment columns naming distinct atoms and decisive rotations, the fragment's lines put its center atom at the origin, its y-axis atom on the x-axis, its xy-plane atom in the xy-plane, with a non-negative z sum |
| LoadAndAlign.AlignParsedRow | code/1_load_from_coords.py:86-90 | line `k` describes the `k`-th atom after relabelling |
| LoadAndAlign.AlignParsedLabels | code/1_load_from_coords.py:56-90 | every atom a column names is written with that column's new label and flagged as central |
| LoadAndAlign.AlignParsedKeepsLabels | code/1_load_from_coords.py:56-90 | every atom no column names is written with its parsed label and flag |
| LoadAndAlign.AlignParsedKeepsDistances | code/1_load_from_coords.py:76-90 | the written coordinates keep every distance between two atoms of the fragment |
| LoadAndAlign.WrittenKeepsDistances | code/1_load_from_coords.py:76-79 | aligned positions keep every distance |
| LoadArgs.StripLines | src/scripts/classes/LoadArgsFromFile.py:28 | one stripped line per line of the file |
| LoadArgs.ArgWordsPerLine | src/scripts/classes/LoadArgsFromFile.py:28-32 | joining the stripped lines with blanks and splitting gives the words of each line in turn: no two words glued, none split |
| LoadArgs.Merge | src/scripts/classes/LoadArgsFromFile.py:35-39 | an attribute already set keeps its value; one unset or missing takes the file's value; nothing else changes and no attribute is lost |
| LoadArgs.MergeIdempotent | src/scripts/classes/LoadArgsFromFile.py:35-39 | merging the same file's attributes twice is merging them once |
| LoadArgs.Namespace.constructor | src/scripts/classes/LoadArgsFromFile.py:20 | the namespace holds the given attributes |
| LoadArgs.Namespace.MergeFrom | src/scripts/classes/LoadArgsFromFile.py:35-39 | the loop over the file's attributes leaves the namespace's attributes equal to the merge |
| LoadArgs.LoadArgsFromFile | src/scripts/classes/LoadArgsFromFile.py:20-39 | `__call__`: the namespace's attributes become the merge of the old ones with what the parser makes of the file's words |
| LoadFromCoords.CheckIfLabelExists | code/load_from_coords.py:128-135 | the result is the label followed by the fewest 'a's that make it unused: it is not among the used labels, every shorter candidate is, and an unused label is returned unchanged |
| LoadFromCoords.ReadHeader | code/load_from_coords.py:102-104 | a header has at least three `**`-separated fields, and its entry and fragment number are the stripped first and third |
| LoadFromCoords.Coordinate | code/load_from_coords.py:120 | a coordinate is a prefix of its word that has no "(" in it |
| LoadFromCoords.LoadFragmentsFromCoords | code/load_from_coords.py:82-125 | the loop succeeds exactly when the model's loop does, and then returns its csv lines |
| LoadFromCoords.AtomLineCount | code/load_from_coords.py:108-123 | there are no more atom lines than lines |
| LoadFromCoords.RunCountsLines | code/load_from_coords.py:94-123 | every atom line yields exactly one csv line, headers none, and lines already written are kept |
| LoadFromCoords.RunKeepsLabelsDistinct | code/load_from_coords.py:101-118 | the labels used within a fragment never repeat |
| LoadFromCoords.StepAtomLine | code/load_from_coords.py:108-123 | an atom line after a header has four words, gets a label none of the fragment's earlier atoms has, and adds one csv line of entry and fragment number, label and the three coordinates |
| LoadFromCoords.StepHeaderLine | code/load_from_coords.py:96-104 | a header line starts a new fragment with no labels used and writes nothing |
| MoleculeFragments.NewAtom | helpers/helpers.py:72 | a new atom keeps its label and coordinates, is not yet measured, and belongs to the fragment ("f") |
| MoleculeFragments.PositionsOf | helpers/Fragment.py:58-83 | one position per key, the position of the atom stored under it |
| MoleculeFragments.CoversCount | helpers/Fragment.py:62 | `len(self.atoms)` equals the number of keys in insertion order |
| MoleculeFragments.Marked | helpers/Fragment.py:19-23 | every atom whose label contains the type gets distance 0 and part "c"; every other atom, all labels and all coordinates stay as they were |
| MoleculeFragments.LastMatch | helpers/Fragment.py:19-21 | the last key in insertion order whose label contains the type, or none when no label does |
| MoleculeFragments.ChosenNext | helpers/Fragment.py:19-21 | one more atom makes `center_atom` that atom exactly when its label contains the type |
| MoleculeFragments.MarkedNext | helpers/Fragment.py:19-23 | one more iteration marks just the next atom, and only when it matches |
| MoleculeFragments.MarkedDone | helpers/Fragment.py:19-23 | after every atom the table is the marked table |
| MoleculeFragments.MarkTable | helpers/Fragment.py:19-23 | the loop of `set_center` marks exactly the matching atoms and leaves `center_atom` on the last match, or where it was |
| MoleculeFragments.Measured | helpers/Fragment.py:26-34 | measuring keeps the keys |
| MoleculeFragments.MeasureTable | helpers/Fragment.py:26-34 | the loop gives every atom other than the center its distance to the center |
| MoleculeFragments.Scores | helpers/Fragment.py:36 | one sort key per atom, its distance to the center |
| MoleculeFragments.Attached | helpers/Fragment.py:36 | the sorted list has one entry per atom |
| MoleculeFragments.Nearest | helpers/Fragment.py:40 | `attached_atoms[1:4]`: the second to fourth nearest atoms, as many as there are |
| MoleculeFragments.CenterBonds | helpers/Fragment.py:40-41 | one bond from the center's label to each of those atoms, in order |
| MoleculeFragments.Joined | helpers/Fragment.py:42 | joining keeps the keys |
| MoleculeFragments.JoinNearest | helpers/Fragment.py:40-42 | the loop marks the nearest atoms as part of the center group and appends one bond each |
| MoleculeFragments.SumZ | helpers/Fragment.py:56-61 | the loop adds up the z of every atom |
| MoleculeFragments.MirrorTable | helpers/Fragment.py:66-70 | the loop changes only coordinates, and the positions become their mirror in z |
| MoleculeFragments.ShiftTable | helpers/Fragment.py:79-83 | every atom but the skipped one is shifted by the move; only coordinates change |
| MoleculeFragments.Negated | helpers/Fragment.py:76 | the move cancels the center's coordinates |
| MoleculeFragments.CenteredPositions | helpers/Fragment.py:72-83 | one centered position per atom |
| MoleculeFragments.ShiftedIsTranslation | helpers/Fragment.py:76-83 | putting the center at the origin and shifting every other atom by minus the center is the translation that centers it |
| MoleculeFragments.CenteredKeepsDifferences | helpers/Fragment.py:72-83 | centering keeps the difference between any two atoms and puts a stored center at the origin |
| MoleculeFragments.AttachedSorted | helpers/Fragment.py:36 | the sorted list is a permutation of the atoms in ascending distance to the center |
| MoleculeFragments.SortedScores | helpers/Fragment.py:36 | `sorted` returns an ascending permutation of its input |
| MoleculeFragments.ScoresFound | helpers/Fragment.py:36 | each sorted entry names an atom whose distance is the entry's key |
| MoleculeFragments.Fragment.constructor | helpers/Fragment.py:5-10 | entry and id as given, no atoms, no bonds, colour "red", and no center yet |
| MoleculeFragments.Fragment.AddAtom | helpers/Fragment.py:12-13 | the atom is stored under its label, replacing an earlier one; a new label joins the end of the order; a replaced center atom lives on outside the dictionary |
| MoleculeFragments.Fragment.AddBond | helpers/Fragment.py:15-16 | the bond is appended and nothing else changes |
| MoleculeFragments.Fragment.SetCenter | helpers/Fragment.py:18-23 | the atoms are the marked table and `center_atom` the last match, or unchanged |
| MoleculeFragments.Fragment.FindBondsAndDistances | helpers/Fragment.py:25-45 | fails exactly when there is no center (`AttributeError`, or `IndexError` on an empty fragment) or fewer than six atoms; otherwise measures, sorts, bonds the center to the three nearest atoms and bonds the fifth to the sixth |
| MoleculeFragments.Fragment.FindAtomsForPlane | helpers/Fragment.py:48-50 | fails exactly when `find_bonds_NO3_and_distances` does, otherwise returns the second and third nearest atoms |
| MoleculeFragments.Fragment.MeanZ | helpers/Fragment.py:56-62 | fails on an empty fragment (division by zero), otherwise the mean z of the atoms |
| MoleculeFragments.Fragment.InvertIfNecessary | helpers/Fragment.py:52-70 | fails exactly on an empty fragment; otherwise only coordinates change, mirrored in z when the mean z is negative |
| MoleculeFragments.Fragment.CenterCoordinates | helpers/Fragment.py:72-83 | fails exactly without a center; otherwise only coordinates change, every atom moves by minus the center and the center ends at the origin |
| MoleculeFragments.MeasureAndJoin | helpers/Fragment.py:26-42 | the sorted atoms, the joined table and the bonds of `find_bonds_NO3_and_distances`, and the center's distance is 0 |
| MoleculeFragments.SortedKeysStored | helpers/Fragment.py:36 | every sorted entry is an atom of the fragment |
| MoleculeFragments.MeasuredNearest | helpers/Fragment.py:26-40 | after measuring every atom has a distance and the nearest atoms are in the table |
| MoleculeFragments.JoinedValid | helpers/Fragment.py:40-42 | joining keeps the table well formed and the center's distance 0 |
| MoleculeLoading.CheckIfLabelExists | helpers/helpers.py:83-90 | the atom comes back unchanged but for its label, which is its own label made free of the fragment's keys by appending 'a's |
| MoleculeLoading.Opened | helpers/helpers.py:68-69 | a header opens an empty fragment whose entry is the first field and whose id is the third |
| MoleculeLoading.Added | helpers/helpers.py:76 | adding an atom stores it under its label; only a new label joins the insertion order |
| MoleculeLoading.ReadAtom | helpers/helpers.py:71-72 | an atom line is read exactly when it has four words whose last three give numbers; the label is the first word without '%', and the atom is unmeasured and part of the fragment |
| MoleculeLoading.ReadLine | helpers/helpers.py:64-72 | a line is read as a header exactly when it contains "FRAG" and has three fields, as an atom exactly when it does not contain "FRAG" and reads as an atom |
| MoleculeLoading.Step | helpers/helpers.py:64-76 | a step fails exactly for an atom before any header |
| MoleculeLoading.RunFrom | helpers/helpers.py:63-76 | the loop from line `i` is one step and then the loop from `i + 1` |
| MoleculeLoading.RunStops | helpers/helpers.py:63-76 | a line that cannot be read, or an atom before any header, stops the loop with that error |
| MoleculeLoading.Load | helpers/helpers.py:54-80 | a successful load returns at least one fragment |
| MoleculeLoading.Opens | helpers/helpers.py:60-66 | the fragments of a loader state are the closed ones, plus the open one if any |
| MoleculeLoading.RunCountsFragments | helpers/helpers.py:63-78 | each header opens exactly one fragment and closed fragments stay as they were |
| MoleculeLoading.LoadCountsFragments | helpers/helpers.py:54-80 | one fragment per "FRAG" line |
| MoleculeLoading.StepAtom | helpers/helpers.py:74-76 | an atom is stored under a label no atom of the fragment had, at the end of the order, keeping the fragment sound |
| MoleculeLoading.RunSound | helpers/helpers.py:63-78 | the loop keeps every fragment sound |
| MoleculeLoading.LoadSound | helpers/helpers.py:54-80 | in every loaded fragment labels are unique and each atom sits under its own label |
| MoleculeLoading.BuiltAppend | helpers/helpers.py:66-78 | one more fresh object holding one more parsed fragment keeps the objects in step with the parse |
| MoleculeLoading.Apply | helpers/helpers.py:64-76 | the loop body on objects keeps them holding the parse |
| MoleculeLoading.LoadFragmentsFromCoords | helpers/helpers.py:54-80 | either the parse's error or new distinct `Fragment` objects holding exactly the parsed fragments |
| MoleculeLoading.ReadLines | helpers/helpers.py:60-78 | the first error, or objects holding the closed fragments and the open one |
| MoleculeLoading.ReadLineAt | helpers/helpers.py:64-76 | one iteration is one step of the parse, or its error |
| MoleculeLoading.ReadBonds | helpers/helpers.py:97-100 | reading succeeds exactly when every line has two words, giving one bond per line from its first two words |
| MoleculeLoading.BondsFor | helpers/helpers.py:102-104 | the bonds a fragment receives are exactly those whose first atom is one of its keys, in order |
| MoleculeLoading.BondIfPresent | helpers/helpers.py:103-104 | a fragment gets the bond only when it has the first atom |
| MoleculeLoading.BondAll | helpers/helpers.py:102-104 | every fragment of the molecule is offered the bond |
| MoleculeLoading.ProcessBondLines | helpers/helpers.py:93-106 | fails exactly when a line has fewer than two words; otherwise each fragment keeps its atoms and has appended the bonds whose first atom it holds; on failure the bonds of the lines before the first short line have already been appended |
| MoleculeLoading.ReadableLines | helpers/helpers.py:97-100 | how many bond lines the loop reads before `information[1]` fails: every line before has two words, the line at it has fewer |
| MoleculeLoading.BondLines | helpers/helpers.py:97-104 | the loop over bond lines, with the same outcome, leaving atoms untouched |
| MoleculeLoading.ReadBondsNext | helpers/helpers.py:97-100 | one more readable line adds its bond |
| MoleculeLoading.ReadBondsStops | helpers/helpers.py:98-100 | a line with fewer than two words stops the reading |
| MoleculeLoading.ReadParameters | helpers/helpers.py:113-119 | reading succeeds exactly when every line has seven words, giving the id (second word) and labels (sixth and seventh) |
| MoleculeLoading.IdColumn | helpers/helpers.py:116 | one fragment id per parameter line |
| MoleculeLoading.IndexOfAppend | helpers/helpers.py:121 | appending never moves an earlier first occurrence |
| MoleculeLoading.CollectIds | helpers/helpers.py:111-126 | the collected ids are distinct, are exactly the ids of the lines, and come in order of first appearance |
| MoleculeLoading.CollectedIds | helpers/helpers.py:111-122 | an id gets labels exactly when a line names it |
| MoleculeLoading.CollectLabels | helpers/helpers.py:111-126 | a label belongs to an id exactly when a line with that id names it |
| MoleculeLoading.ReadParametersNext | helpers/helpers.py:113-119 | one more readable line adds its row |
| MoleculeLoading.CollectNext | helpers/helpers.py:121-122 | one more row adds its id if new and its two labels to the id's set |
| MoleculeLoading.CollectTargetAtoms | helpers/helpers.py:111-126 | fails exactly when a line is too short; otherwise the ids and their sets of labels |
| MoleculeLoading.ReadParametersStops | helpers/helpers.py:114-119 | a line with fewer than seven words stops the reading |
| MoleculeLoading.ProcessParameterLines | helpers/helpers.py:109-130 | fails exactly when a line is too short, leaving the fragments; otherwise keeps the earlier fragments and appends fresh ones holding copies of the molecule's atoms, one per collected id |
| Molecules.SelectedCovers | helpers/Molecule.py:24-28 | the copied atoms are stored under their own labels, each key listed once in order |
| Molecules.SelectedKeys | helpers/Molecule.py:24-28 | a label is copied exactly when it is wanted and some atom of the molecule has it |
| Molecules.SelectedLast | helpers/Molecule.py:24-28 | the atom copied under a label is the molecule's last atom with that label |
| Molecules.CopiedAllAppend | helpers/Molecule.py:21-30 | one more fragment copied for one more id keeps all fragments copied |
| Molecules.NewFragment | helpers/Molecule.py:22-28 | a fresh fragment named after the molecule and the id, holding copies of the wanted atoms |
| Molecules.CenterOne | helpers/Molecule.py:34-35 | `set_center` then `center_coordinates` succeed exactly when an atom's label contains the type, and then the fragment is centered on the last such atom |
| Molecules.Molecule.constructor | helpers/Molecule.py:9-13 | the label as given, no atoms and no fragments |
| Molecules.Molecule.ExtendMolecule | helpers/Molecule.py:15-16 | the atom is appended; fragments unchanged |
| Molecules.Molecule.AddFragments | helpers/Molecule.py:18-30 | one fresh fragment per id is appended after the earlier ones, each holding copies of the molecule's atoms its labels name |
| Molecules.Molecule.CenterFragments | helpers/Molecule.py:32-35 | succeeds exactly when every fragment has an atom of the type, and then every fragment is centered on it |
| Quantify.Above | src/quantify.py:66 | the cluster has no more bins than the grid |
| Quantify.AboveSpec | src/quantify.py:66-68 | a fraction is in the cluster exactly when it reaches the cut; with non-negative fractions the cluster's share is between 0 and the total |
| Quantify.FindCluster | src/quantify.py:65-69 | the cluster has no more bins than the grid |
| Quantify.ClusterBounds | src/quantify.py:65-69 | with normalised fractions the cluster is non-empty exactly when the threshold is at most one, and then holds a share in (0, 1] and a positive volume |
| Quantify.ClusterAround | src/quantify.py:65-69 | the same for any largest fraction `m` and cut `m * threshold` |
| Quantify.CubePositive | src/quantify.py:69 | `len(in_cluster) * resolution**3` is positive for a non-empty cluster |
| Quantify.ScaleDown | src/quantify.py:65 | a threshold of at most one puts the cut at or below the largest fraction |
| Quantify.ScaleUp | src/quantify.py:65 | a threshold above one puts the cut above the largest fraction |
| Quantify.MembersHoldMax | src/quantify.py:66-68 | a cut at or below the largest fraction keeps it, so the cluster's share is positive and at most the total |
| Quantify.NoMembers | src/quantify.py:66 | a cut above every fraction leaves the cluster empty |
| Quantify.MaxPositive | src/quantify.py:65 | normalised fractions have a positive largest fraction |
| Quantify.Directionality | src/quantify.py:59-72 | defined exactly when the counts have a positive sum and the threshold is at most one; then the cluster is non-empty with a share in (0, 1] and the directionality times the cluster volume is the share times half the available volume |
| Quantify.FractionsNonNegative | src/quantify.py:59 | normalised counts are non-negative |
| Quantify.QuantifyDirectionality | src/quantify.py:59-72 | steps 5-7 of `main` fail exactly when the model has no atoms or only R atoms; otherwise they give the directionality with `tolerance + contact_group_radius` as the extra reach |
| RadiiTable.Matching | src/scripts/classes/Radii.py:28-29 | the rows of the symbol are table rows with that symbol |
| RadiiTable.MatchingAbsent | src/scripts/classes/Radii.py:29 | a symbol the table lacks matches no row |
| RadiiTable.MatchingUnique | src/scripts/classes/Radii.py:29-31 | a symbol on one row only matches just that row |
| RadiiTable.VdwOf | src/scripts/classes/Radii.py:28-33 | found exactly when one row has the symbol, and then it is that row's van der Waals radius; otherwise the assertion error |
| RadiiTable.CovOf | src/scripts/classes/Radii.py:45-50 | found exactly when one row has the symbol, and then it is that row's covalent radius; otherwise the assertion error |
| RadiiTable.ContactSymbol | src/scripts/classes/Radii.py:59-63 | "C" for a centroid, in any case, and the reference point itself otherwise |
| RadiiTable.LookupUnique | src/scripts/classes/Radii.py:21-53 | a symbol on one row only gets that row's radii |
| RadiiTable.Radii.constructor | src/scripts/classes/Radii.py:16-19 | the table as given and both caches empty |
| RadiiTable.Radii.GetVdwRadius | src/scripts/classes/Radii.py:21-36 | the answer is the table lookup; a found radius is remembered, remembered radii stay, and the covalent cache does not change |
| RadiiTable.Radii.GetCovRadius | src/scripts/classes/Radii.py:38-53 | the answer is the table lookup; a found radius is remembered, remembered radii stay, and the van der Waals cache does not change |
| RadiiTable.Radii.GetVdwDistanceContact | src/scripts/classes/Radii.py:55-63 | the van der Waals radius of carbon for a centroid, of the reference point otherwise; a radius read is remembered under its symbol and a failed read leaves the remembered radii as they were |
| RadiiTable.LookupTwice | src/scripts/classes/Radii.py:24-36 | remembering changes no answer: two lookups of a symbol, with others between, agree with a fresh read of the table |
| ReferenceFragment.SymbolRows | code/helpers/geometry_helpers.py:15 | the rows of one symbol are exactly the rows with that symbol |
| ReferenceFragment.CalculateCenter | code/helpers/geometry_helpers.py:11-21 | no center exactly when no row has a listed symbol |
| ReferenceFragment.SymbolRowsCount | code/helpers/geometry_helpers.py:15 | each row is selected as often as it occurs when its symbol matches, never otherwise |
| ReferenceFragment.InAtomsCount | code/helpers/geometry_helpers.py:14-18 | the rows in listed-symbol order are, as a multiset, the rows with a listed symbol |
| ReferenceFragment.SelectedCount | code/helpers/geometry_helpers.py:14-18 | with distinct symbols the concatenation holds each row with a listed symbol exactly as often as it occurs |
| ReferenceFragment.CenterOfListed | code/helpers/geometry_helpers.py:11-21 | with distinct symbols the center exists exactly when some row has a listed symbol, and is the mean of those rows' positions |
| ReferenceFragment.Numbered | code/helpers/geometry_helpers.py:42-43 | the labels `atom + str(i)` for `i` from 1 to the amount |
| ReferenceFragment.TemplateHas | code/helpers/geometry_helpers.py:39-43 | `TemplateLabels`: every numbered label of every symbol of the central group is a template label |
| ReferenceFragment.StartCounts | code/helpers/geometry_helpers.py:39-40 | every symbol of the central group starts counting at 1 |
| ReferenceFragment.CountGrows | code/helpers/geometry_helpers.py:55-61 | each row of a symbol raises that symbol's count |
| ReferenceFragment.FirstLabelsDistinct | code/helpers/geometry_helpers.py:54-61 | two rows of the same symbol in the first fragment get different labels |
| ReferenceFragment.Put | code/helpers/geometry_helpers.py:59 | storing in `closest` sets the key's value; only a new key joins the insertion order |
| ReferenceFragment.Recorded | code/helpers/geometry_helpers.py:54-59 | recording keeps `closest` well formed |
| ReferenceFragment.CountStep | code/helpers/geometry_helpers.py:61 | one more row adds one to its symbol's count and nothing to others |
| ReferenceFragment.CountsNext | code/helpers/geometry_helpers.py:55-61 | the loop's counts stay one more than the rows of each symbol seen so far |
| ReferenceFragment.LabelsNext | code/helpers/geometry_helpers.py:55-57 | the loop's labels stay the first-fragment labels of the rows seen |
| ReferenceFragment.RecordedStep | code/helpers/geometry_helpers.py:59 | one more row stores its position under its label |
| ReferenceFragment.OverwriteStep | code/helpers/geometry_helpers.py:112-117 | writing one more row sets its cell to its coordinates |
| ReferenceFragment.OverwriteLast | code/helpers/geometry_helpers.py:112-117 | `Overwrite`: a cell holds the coordinates of the last row written to it |
| ReferenceFragment.OverwriteUntouched | code/helpers/geometry_helpers.py:112-117 | cells of other fragments or labels are left as they were |
| ReferenceFragment.OverwriteAgree | code/helpers/geometry_helpers.py:112-117 | writing the same rows into tables that agree on a cell keeps them agreeing there |
| ReferenceFragment.FirstLabels | code/helpers/geometry_helpers.py:54-61 | one label per row of the first fragment, the symbol numbered by its occurrence |
| ReferenceFragment.FirstStage | code/helpers/geometry_helpers.py:53-61 | fails exactly when a row's symbol is not in the central group (`KeyError`), otherwise labels every row and keeps `closest` well formed |
| ReferenceFragment.FirstStageKeys | code/helpers/geometry_helpers.py:53-61 | a non-empty first fragment leaves `closest` non-empty |
| ReferenceFragment.LabelledNext | code/helpers/geometry_helpers.py:54-61 | one iteration numbers the row, stores its position in `closest` and writes its cell |
| ReferenceFragment.LabelledDone | code/helpers/geometry_helpers.py:54-61 | after every row the loop's state is the first stage |
| ReferenceFragment.LabelFirstFragment | code/helpers/geometry_helpers.py:50-61 | the loop over the first fragment computes the first stage, or its `KeyError` |
| ReferenceFragment.NearestOf | code/helpers/geometry_helpers.py:84-93 | a nearest key exists exactly when `closest` is non-empty, and is one of its keys |
| ReferenceFragment.NearestOfSpec | code/helpers/geometry_helpers.py:84-93 | the chosen key is at least as near as every key, and the first of the nearest in insertion order (strict `<`) |
| ReferenceFragment.NearestLabel | code/helpers/geometry_helpers.py:84-93 | the loop over `closest` picks the nearest key |
| ReferenceFragment.RowsWithId | code/helpers/geometry_helpers.py:81 | the rows of one fragment are exactly the rows with its id |
| ReferenceFragment.IdsOf | code/helpers/geometry_helpers.py:77 | the id column |
| ReferenceFragment.Choices | code/helpers/geometry_helpers.py:83-93 | every row of a fragment gets the nearest key |
| ReferenceFragment.FilledFragment | code/helpers/geometry_helpers.py:83-95 | fails exactly when a fragment has rows and `closest` is empty (`None + "x"`) |
| ReferenceFragment.FilledNext | code/helpers/geometry_helpers.py:83-95 | one row writes its coordinates under its nearest key |
| ReferenceFragment.FillFragment | code/helpers/geometry_helpers.py:81-95 | the loop over a fragment's rows writes exactly the model's cells, or fails as it does |
| ReferenceFragment.FilledAll | code/helpers/geometry_helpers.py:75-97 | the only failure is a missing nearest key |
| ReferenceFragment.FilledAllOk | code/helpers/geometry_helpers.py:75-97 | with a non-empty `closest` the loop never fails |
| ReferenceFragment.FilledAllLast | code/helpers/geometry_helpers.py:80-95 | the last fragment's rows are written over what the earlier ones left |
| ReferenceFragment.FilledAllOther | code/helpers/geometry_helpers.py:80-95 | cells of fragments not in the loop are left as they were |
| ReferenceFragment.FilledAllAt | code/helpers/geometry_helpers.py:80-95 | with distinct ids a fragment's cells are just what its own rows write |
| ReferenceFragment.FilledAllStep | code/helpers/geometry_helpers.py:80-95 | the loop over one more fragment is one more fragment fill |
| ReferenceFragment.FilledAllPrefixErr | code/helpers/geometry_helpers.py:80-95 | a failure stops the whole loop |
| ReferenceFragment.Later | code/helpers/geometry_helpers.py:77 | `unique()[1:]`: every id after the first |
| ReferenceFragment.FillCoordinates | code/helpers/geometry_helpers.py:75-97 | `fill_coordinates` fills every fragment after the first, with the model's outcome |
| ReferenceFragment.FillFragments | code/helpers/geometry_helpers.py:80-95 | the loop over fragment ids, with the model's outcome |
| ReferenceFragment.ColumnValues | code/helpers/geometry_helpers.py:103 | a column has at most one value per fragment |
| ReferenceFragment.ColumnValuesEmpty | code/helpers/geometry_helpers.py:103 | a column is empty exactly when no fragment has a cell for the label |
| ReferenceFragment.AtomFor | code/helpers/geometry_helpers.py:103-105 | the averaged atom carries the label |
| ReferenceFragment.AtomForSpec | code/helpers/geometry_helpers.py:103-105 | the atom exists exactly when its label has two characters and some fragment filled the column; then it sits at the mean of the column |
| ReferenceFragment.PlacedNext | code/helpers/geometry_helpers.py:102-107 | one more template label adds its averaged atom |
| ReferenceFragment.UniqueNext | code/helpers/geometry_helpers.py:47-77 | `unique()` of one more id adds it only when new |
| ReferenceFragment.MakeFragment | code/helpers/geometry_helpers.py:99-109 | succeeds exactly when every template atom can be averaged, otherwise fails at the first that cannot; on success a fresh fragment with each template atom at its column's mean |
| ReferenceFragment.CentralOf | code/helpers/geometry_helpers.py:32 | the central-group rows are exactly the rows flagged central |
| ReferenceFragment.AveragedCellsOk | code/helpers/geometry_helpers.py:32-64 | `AveragedCells`: no failure is a missing nearest key, and the loop fails for lack of fragments exactly when no row is central (`unique()[0]` on an empty column) |
| ReferenceFragment.AverageFragment | code/helpers/geometry_helpers.py:23-72 | `average_fragment` without its cache: fails as the table fill or `make_fragment` does, otherwise returns a fresh fragment with every template atom averaged over the fragments |
| SettingsModel.BaseNameOf | src/scripts/classes/Settings.py:38 | the name of `dir\\name.ext` is `name` |
| SettingsModel.AfterLastOf | src/scripts/classes/Settings.py:38 | `rsplit(c)[-1]` is the text after the last `c` |
| SettingsModel.TrailingOtherOf | src/scripts/classes/Settings.py:38 | the text after the last `c` has the length of the part without `c` |
| SettingsModel.BeforeLastOf | src/scripts/classes/Settings.py:38 | `rsplit('.', 1)[0]` is the text before the last dot |
| SettingsModel.ParseNames | src/scripts/classes/Settings.py:38-54 | with both names given they are used and the prefix is `central_contact_`; with one given the script exits; with none the names are the first two `_`-fields of the file name, and fail when it has only one |
| SettingsModel.ParseNamesFromFile | src/scripts/classes/Settings.py:38-45 | a file named `central_contact...` gives those two names and no prefix |
| SettingsModel.FieldsOfName | src/scripts/classes/Settings.py:42-43 | the first two `_`-fields of `central_contact_rest` are the names |
| SettingsModel.HeadField | src/scripts/classes/Settings.py:42 | the first `_`-field of a name followed by `_...` is the name |
| SettingsModel.SplitAtFirst | src/scripts/classes/Settings.py:42-43 | splitting on `_` separates the first field from the split of the rest |
| SettingsModel.SplitNone | src/scripts/classes/Settings.py:42-43 | a text without `_` is one field |
| SettingsModel.Settings.constructor | src/scripts/classes/Settings.py:24-54 | the work directory, coordinate file and names as given, and the result folders and prefix that `set_result_directory` derives |
| SettingsModel.Settings.SetResultDirectory | src/scripts/classes/Settings.py:56-62 | the central-group folder, the pair folder and the file prefix derived from the names; nothing else changes |
| SettingsModel.Settings.SetResolution | src/scripts/classes/Settings.py:69-70 | the resolution is set and nothing else changes |
| SettingsModel.Settings.SetThreshold | src/scripts/classes/Settings.py:72-73 | the threshold is set and nothing else changes |
| SettingsModel.Settings.SetContactReferencePoint | src/scripts/classes/Settings.py:81-82 | the contact reference point is set and nothing else changes |
| SettingsModel.Settings.ResultFilesDistinct | src/scripts/classes/Settings.py:75-119 | the aligned, structures, coordinates, density and average-fragment files of one pair never share a name |
| SettingsModel.SuffixesDistinct | src/scripts/classes/Settings.py:76-118 | the five result-file suffixes differ, so one prefix never gives two kinds the same name |
| SettingsModel.NewSettings | src/scripts/classes/Settings.py:24-54 | `Settings(...)` succeeds exactly when the names can be settled, and then a fresh object whose file prefix is `WORKDIR\\results\\pairs\\central\\` + prefix + name + `\\central_contact` |
| Sorting.InsertAscending | helpers/Fragment.py:36 | inserting into an ascending list keeps it ascending |
| Sorting.InsertElements | helpers/Fragment.py:36 | inserting adds exactly the one element |
| Sorting.InsertStable | helpers/Fragment.py:36 | an inserted element goes after every element of the same key, as a stable sort places it |
| Sorting.WithScoreAppend | helpers/Fragment.py:36 | the elements of one key in a concatenation are those of the two parts in order |
| Sorting.WithScoreAbove | helpers/Fragment.py:36 | an ascending list whose first key exceeds `d` has no element of key `d` |
| Sorting.SortByScoreSpec | helpers/Fragment.py:36 | `sorted(..., key=...)` returns an ascending permutation that keeps the input order among equal keys |
| Sorting.SortByScore | helpers/Fragment.py:36 | `sorted` returns the same elements, as many times each; `Sorting.SortByScoreSpec` adds the ascending order and the stability |
| Sorting.InsertItems | helpers/Fragment.py:36 | inserting adds exactly the one item |
| Sorting.SortKeepsItems | helpers/Fragment.py:36 | sorting is a permutation of the items |
| Text.ContainsAt | code/1_load_from_coords.py:111 | `sub in s` holds when `sub` occurs at some position |
| Text.ContainsWitness | code/1_load_from_coords.py:111 | `sub in s` gives a position where `sub` occurs |
| Text.NoOccurrence | code/1_load_from_coords.py:111 | without any occurrence `sub in s` is false |
| Text.FindFirst | code/1_load_from_coords.py:112 | the first occurrence of the separator: it occurs there and nowhere before |
| Text.Split | code/1_load_from_coords.py:112 | `str.split(sep)` gives at least one field |
| Text.SplitJoin | code/1_load_from_coords.py:112 | joining the fields of `split(sep)` with `sep` gives the text back |
| Text.AroundOccurrence | code/1_load_from_coords.py:112 | a text is what precedes an occurrence, the separator and what follows |
| Text.SplitFieldsFree | code/1_load_from_coords.py:112 | no field of `split(sep)` contains `sep` |
| Text.FirstField | code/1_load_from_coords.py:112-113 | the first field is a prefix of the text without the separator |
| Text.PrefixBeforeFirst | code/1_load_from_coords.py:112 | the text before the first occurrence does not contain the separator |
| Text.Words | code/1_load_from_coords.py:122 | `str.split()` gives non-empty words without blanks |
| Text.WordLength | code/1_load_from_coords.py:122 | a word runs up to the first blank |
| Text.WordLengthSpaced | src/scripts/classes/LoadArgsFromFile.py:29-32 | a word ends at an added blank |
| Text.WordsSpaced | src/scripts/classes/LoadArgsFromFile.py:29-32 | the words of two texts joined by a blank are the words of each in turn |
| Text.LeadingIn | code/1_load_from_coords.py:113 | the stripped prefix is no longer than the text |
| Text.TrailingIn | code/1_load_from_coords.py:113 | the stripped suffix is no longer than the text |
| Text.LeadingInSpec | code/1_load_from_coords.py:113 | `strip` removes exactly the leading characters of the set, up to the first other one |
| Text.TrailingInSpec | code/1_load_from_coords.py:113 | `strip` removes exactly the trailing characters of the set, back to the last other one |
| Text.StripCharsShape | code/1_load_from_coords.py:125 | a stripped text is a middle part of the text with only stripped characters around it, and neither begins nor ends with one |
| Text.TrailingOther | src/scripts/classes/Settings.py:38 | the part after the last `c` is no longer than the text |
| Text.TrailingOtherSpec | src/scripts/classes/Settings.py:38 | the part after the last `c` has no `c` and is preceded by one, or is the whole text |
| Text.AfterLast | src/scripts/classes/Settings.py:38 | `rsplit(c)[-1]`: a suffix without `c`, preceded by `c` unless it is the whole text |
| Text.BeforeLast | src/scripts/classes/Settings.py:38 | `rsplit(c, 1)[0]`: the prefix before the last `c`, or the whole text without one |
| Text.NatToString | code/1_load_from_coords.py:71-73 | `str(n)` is a non-empty string of digits whose value is `n` |
| Text.NatToStringInjective | code/1_load_from_coords.py:71-73 | different numbers give different strings, so `"R" + str(j + 1)` labels differ per column |
| Text.Upper | src/scripts/helpers/density_helpers.py:248 | `str.upper` upper-cases each character and keeps the length |
| Text.Lower | src/scripts/classes/Radii.py:59 | `str.lower` on ASCII: each upper-case ASCII letter becomes its lower-case letter and every other character is kept |
| UniqueLabels.As | code/helpers/general_helpers.py:5 | `k` letters 'a' |
| UniqueLabels.LongerShrinks | code/helpers/general_helpers.py:4-6 | a taken label leaves fewer taken labels at least one longer, so the recursion ends |
| UniqueLabels.FreeLabel | code/helpers/general_helpers.py:1-8 | the label followed by the fewest 'a's that make it free: not taken, every shorter candidate taken, an untaken label unchanged |
| UniqueLabels.FreeLabelBound | code/helpers/general_helpers.py:1-8 | at most as many 'a's are appended as there are taken labels |
| UniqueLabels.ElementsBound | code/helpers/general_helpers.py:4 | a list has no more distinct labels than entries |
| Lists.IndexOf | code/1_load_from_coords.py:76-77 | the first position of an element, present exactly when the element is in the list |
| Lists.Unique | code/helpers/geometry_helpers.py:47 | `unique()`: the distinct values, each once, the same values as the column |
| Lists.SortedUnique | code/src/scripts/helpers/geometry_helpers.py:46 | the group keys of `groupby`: strictly ascending, each once, exactly the values of the column |
| Lists.IncreasingUnique | code/src/scripts/helpers/geometry_helpers.py:46 | two strictly ascending lists with the same values are equal: the group order is determined by the keys alone |
| Lists.UniqueFirst | code/helpers/geometry_helpers.py:50 | `unique()[0]` of a non-empty column is its first value |
| Vectors.MeanPermutation | code/helpers/geometry_helpers.py:19 | `Mean`: the mean of positions does not depend on their order |

## Left out

Floating point, transcendental functions and numeric libraries:
- DensityGrid.FillBins: coordinates and bin boundaries are exact reals. The float32 casts of `fill_bins` (src/scripts/helpers/density_helpers.py:93-96) and IEEE rounding are not modelled. So the proofs that every point falls in exactly one first bin and that the counts add up to the number of points hold for exact reals only. In floating point a point can miss every bin, which the source itself anticipates and reports.
- DensityGrid.Normalise: the normalised counts sum to one in exact reals only. Floating-point rounding of the division is not modelled.
- DensityGrid.CountDataPointsPerBin: reports a point that falls in no bin as an error. In exact reals that never happens inside the grid's extent. The float32 misses that make the source report it are not modelled.
- ReferenceFragment.AtomFor: a template label with no cells in its column gives `Err(EmptyColumn)`. pandas instead takes a `NaN` mean there, and `make_fragment` (code/helpers/geometry_helpers.py:103-107) silently builds an atom at `NaN`. This happens when the first fragment has fewer atoms of a symbol than the central group lists.
- ReferenceFragment.CalculateCenter: the mean of no rows is `None` here, where pandas returns `NaN`.
- Quantify.Directionality: a zero count total or a threshold above one gives `NaN` or infinity in numpy. Here it gives `None`.
- AlignmentHelpers.AngleRotation: `find_angles` computes `arccos(u / norm)` and then the sine and cosine of that angle (src/scripts/helpers/alignment_helpers.py:152-170). The model uses the cosine `u / norm` and the matching signed sine directly. It has no angle, no `arccos` and no `NaN` from rounding that pushes `u / norm` outside [-1, 1].
- AlignmentHelpers.StepAligns: holds only for decisive projections, those exactly zero or at least 1e-10 long. A projection that is non-zero but shorter than the 1e-10 guard gets angle 0, and the atom is then not exactly on the axis.
- LoadAndAlign.AlignedCanonical: inherits that condition, as does LoadAndAlign.AlignParsedCanonical. The `arccos` of code/helpers/rotation_helpers.py:55-75 is modelled the same way.
- AlignmentHelpers.KabschAlign: the Kabsch fit is an abstract rigid transform `fit`. The SVD, the determinant and the reflection fix (src/scripts/helpers/alignment_helpers.py:50-80) are floating-point linear algebra through `np.linalg`. Only the equal-length precondition and the centroid bookkeeping are modelled.
- Reals.IsSqrt: `sqrt` and `np.linalg.norm` are a parameter that returns the non-negative root. Distances are compared through their squares wherever the source allows.
- SettingsModel.Settings.SetResolution: stores the resolution exactly. `round(resolution, 2)` is not modelled.
- SettingsModel.Settings.SetThreshold: stores the threshold exactly. `round(threshold, 2)` is not modelled.
- `get_density_df_key` and `get_density_plotname` build keys from float-to-string formatting. They are not modelled.
- KMeans relabelling and clustering are not modelled. This covers the `kmeans_label` branch of `average_fragment`, src/scripts/calc_avg_fragment.py:66-84 and code/4a_plot_clusters.py, which rely on scikit-learn. `calc_avg_rmse` is not modelled either.
- `add_model_methyl`, `rotation_from_axis_and_angle` and code/src/tools/calc_angles.py are not modelled. They are trigonometry on floats.

Errors the source does not raise:
- LegacyDensity.BinsInVdw: when `part_density` drops a bin, the source reads its marks against the wrong bin centres, or past the end of the array. It does so silently. The model returns `Err(MisalignedBins)` instead. `BinsInVdwDefined` shows that with at least three bins on every axis this never happens.
- LegacyDensity.CountBinsInVdw: returns `Err(MisalignedBins)` in the same case.
- AlignmentHelpers.GetAtomSymbol: requires an id of at least two characters. The source raises `IndexError` on a shorter id.
- Fragments.NewAtom: has the same requirement, for the same reason.
- Fragments.Fragment.MeanZ, Fragments.Fragment.InvertIfNecessary and Fragments.Fragment.CenterCoordinates: each requires what its callers already guarantee. MeanZ and InvertIfNecessary require at least one atom, where the source divides by zero on an empty fragment. CenterCoordinates requires the center label to be a key, where the source raises `KeyError`. The raise is not reachable from the script, so it is a precondition and not an error case.
- DensityGrid.CalculateNoBins: requires a positive resolution. The source raises `ZeroDivisionError` at zero and computes a meaningless bin count for a negative one.
- DensityGrid.MakeDensityDf: requires a positive resolution, for the same reason.
- Molecules.Molecule.CenterFragments: states `Ok` exactly when every fragment has a center. In Python the first fragment without a center raises after the earlier fragments were already centred. The model's error case does not state which fragments were moved before the failure.
- LoadFromCoords.LoadFragmentsFromCoords: the script assigns `row.columns = ["label", "atom"]` to the labels table. That raises `ValueError` when the table does not have exactly two columns. This check and the unused variable `label` of code/load_from_coords.py are not modelled. The line rewriting is.
- LoadAndAlign.Load: when no header line is present, `load_fragments_from_coords` returns `[None]`, and the script then fails on it. Here that is an error.

Effects on the caller's data:
- DensityVolume.FindAvailableVolume: computes the returned volume from an upper-cased copy of the labels. The source upper-cases the caller's `label` column in place, and `find_min_max_bounds` adds bound columns to the caller's frame. Neither change to the caller's frame is modelled.

Input, output and caching:
- ReferenceFragment.AverageFragment: the pickle cache of `average_fragment` (code/helpers/geometry_helpers.py:27-31, 68-70) is not modelled. The method always computes the fragment.
- DensityGrid.MakeDensityDf: the HDF cache of `make_density_df` (src/scripts/helpers/density_helpers.py:34-57) is not modelled. The `make_coordinate_df` cache (code/src/scripts/helpers/geometry_helpers.py:12-15, 52) is not modelled either.
- SettingsModel.NewSettings: creates no directories. The model also leaves out the directory creation of `Fingerprint`.
- LoadAndAlign.AlignCoordinateFile: gives the complete list of CSV lines, or the exception. The lines the script has already written to the CSV file when an exception stops it are not modelled.
- File contents are inputs: sequences of lines, or rows of a table. Reading the files, `read_raw_data`, the CSV splitting of code/src/scripts/helpers/general_helpers.py:15-52 and `make_alignment_dict`'s CSV read are not modelled.
- `print` and `tqdm` progress output are not modelled.
- Plotting is not modelled: every `plot_*` module, both `density_slider.py` files and `Fingerprint.make_plot`. Neither is the interactive menu of src/quantify.py (`ask_int_input`, `ask_bool_input`, `perform_option`). Of src/quantify.py only the directionality arithmetic is modelled.
- The `prange` loop of `calc_distances` runs in parallel under numba. Every index is written independently, so it is modelled as a sequential loop (DensityVolume.CalcDistances).

Strings and missing source:
- Text.Words: splits on the ASCII whitespace characters only. Python's `str.split()` and `str.strip()` also treat 0x1c-0x1f, 0x85, 0xa0 and the Unicode spaces as blank.
- Text.Upper: maps only ASCII letters. Python's `str.upper()` upper-cases every Unicode letter.
- Text.Lower: maps only ASCII letters and keeps the length. Python's `str.lower()` lower-cases every Unicode letter and can lengthen a string ("İ" becomes two characters). The result is only compared with "centroid" (RadiiTable.ContactSymbol), and no non-ASCII character lower-cases to one of its letters, so the comparison comes out the same.
- helpers/Atom.py is not part of this model. The constructor `Atom(label, x=…, y=…, z=…)` that helpers/helpers.py:72 calls on raw strings is assumed to behave like code/classes/Atom.py: it cuts each coordinate before its "(" and parses it (MoleculeLoading.ReadAtom).

Other rewrites:
- Copies that behave the same are modelled once, through the file named in the table:
  - code/helpers/helpers.py, code/align_kabsch.py and code/helpers/rotation_helpers.py;
  - code/src/scripts/classes/Settings.py and code/src/scripts/classes/Radii.py;
  - code/helpers/density_helpers.py, code/4_calc_density.py, code/calc_density.py and code/5_analyze_density.py;
  - code/helpers/Fragment.py and code/helpers/Atom.py.
- The early prototypes that use hard-coded data or call functions that no longer exist are not modelled. Nor are the test scripts.
- Known broken call sites are taken as parameters rather than reproduced:
  - code/src/scripts/align_kabsch.py passes the center index twice (line 58), uses an undefined `no_atoms_central` (line 69), and calls `prepare_data` with its arguments reversed (line 50 against line 108);
  - code/align_rotations.py:39 calls `prepare_data` with three arguments.
  The number of atoms, the number of central atoms and the alignment indices are parameters of AlignKabsch.DoKabschAlign and AlignRotations.DoRotationAlign.

## Findings

| source | as written | input that shows it | evidently intended | confidence | as-written member | corrected member |
|---|---|---|---|---|---|---|
| code/src/scripts/helpers/density_helpers.py:18-39 | the axis starts are `linspace(min, max, num=n, endpoint=False)` with `max - min = (n - 1) * res`, so consecutive starts lie `(n - 1) * res / n` apart while every bin is `res` wide | resolution 1 and points from -1 to 1: the starts are -1, -1/3 and 1/3, so the bins overlap and -0.2 lies in two of them | starts spaced exactly one resolution apart, so that the bins tile the range | not executed | LegacyDensity.StartsSpacing, LegacyDensity.OverlappingBins | DensityGrid.StartsSpaced |
| code/calc_density_4.py:84-89 | a point is counted in every bin whose closed cube holds it, so a point on a shared face is counted twice | bins at the origin and at (1, 0, 0) with resolution 1, and the point (1, 0, 0): both counts go up | every point counted in exactly one bin, so that the counts add up to the number of points | not executed | ClosedBins.DoubleCounted, ClosedBins.ClosedCountsCover | DensityGrid.FillBins, DensityGrid.CountDataPointsPerBin |
| code/src/scripts/helpers/geometry_helpers.py:32-38 | `radii.get_vdw_distance_contact(df, settings)` passes two arguments to a method that takes one (code/src/scripts/classes/Radii.py:32), so the call raises `TypeError` | a radii table holding O with van der Waals radius 1.52 and covalent radius 0.66, and contact atom "O": the call fails instead of returning 1.52 | the contact atom's van der Waals radius (the radius of C for "centroid") | not executed | ContactGeometry.LongestVdwAsWritten, ContactGeometry.LongestVdwMismatch | ContactGeometry.LongestVdw, ContactGeometry.MakeCoordinateDf |
