# EC2 reserved-capacity report: normalization and reconciliation core

This project models the core of a single-pass report. The report compares an
AWS account's running EC2 capacity with its active reserved instances, per
instance family. Capacity is measured in normalization units. Each instance
size has a weight relative to one "small" instance, looked up in a fixed
table. The model covers:

- **Catalog** (`catalog.dfy`): the size-to-weight table, and the lookup that
  gives 0 for an unknown size.
- **Classifier** (`classifier.dfy`): Python's `str.split(".")`, modelled as
  `Split` with its inverse `Join`. The family is piece 0 of the split. The
  normalization factor is the catalog weight of piece 1, or 0 when there is
  no piece 1.
- **Records** (`records.dfy`): the two loops that turn fetched instance and
  reservation records into classified records. A reservation's total factor
  is factor × count. It is convertible exactly when its offering class is
  `"convertible"`.
- **Aggregation** (`aggregation.dfy`, over the generic sums of `sums.dfy`):
  the two listing loops. They total factors per family into a map. They also
  compute the grand total and flag reservations expiring within five days
  (`expiry.dfy`). Each loop is proved equal to a reference definition: the
  family set that occurs, mapped to the sum over that family. Lemmas prove
  further properties:
  - the result does not depend on input order;
  - the grand total equals the sum of the per-family values;
  - each reservation lands in exactly one bucket.
- **Reconciliation** (`reconciliation.dfy`, with string order and sorting in
  `ordering.dfy`):
  - The comparison loop visits the union of both key sets in ascending
    string order. A side that lacks a family contributes 0.
  - `Verdict` is the five-way verdict behind the printed messages.
  - It is proved to agree with a reference allocation that applies fixed
    reservations first and convertible ones second (`VerdictFollowsAllocation`).

Inputs are the already-fetched records. The clock is a parameter `now`.
Times are whole seconds. Weights are exact `real`s, because every table
value is a multiple of 0.25.

Three behaviours of the code are easy to misread:

- A type without a dot is its own family, not `"Unknown"`. `split` always
  yields at least one piece, so the `IndexError` handler never runs.
  `FamilyUnknown` proves that the family is `"Unknown"` only when the type
  itself is `"Unknown"` or starts with `"Unknown."`.
- The size is piece 1 of the split, not everything after the first dot. So
  `"a.b.c"` weighs as size `"b"`.
- When fixed reservations match running capacity exactly and convertible
  capacity exists, the code prints its own message. That case is a separate
  verdict here, `MatchedWithUnusedConvertible`, not `CoveredByConvertible`.

## Model

| member | source | states |
|---|---|---|
| Catalog.FactorsPositive | aws-ec2-reserved-report.py:10-31 | every tabulated size weighs strictly more than 0, so 0 can serve as the "unknown size" value |
| Catalog.WeightOf | aws-ec2-reserved-report.py:37 | the lookup with default 0: non-negative, positive exactly for tabulated sizes, and equal to the table's value for them |
| Classifier.Split | aws-ec2-reserved-report.py:36 | `str.split` with a separator yields at least one piece, and no piece contains the separator |
| Classifier.SplitJoin | aws-ec2-reserved-report.py:36 | gluing the pieces of a split back together with the separator restores the string |
| Classifier.JoinSplit | aws-ec2-reserved-report.py:36 | splitting the join of separator-free pieces returns exactly those pieces (round trip in the other direction) |
| Classifier.SplitHead | aws-ec2-reserved-report.py:36 | a separator-free prefix followed by the end or by a separator is piece 0, and the remaining pieces are the split of what follows the separator |
| Classifier.Family | aws-ec2-reserved-report.py:41-46 | the family is a prefix of the type with no dot in it, followed in the type by a dot or by nothing, so it is the text before the first dot or the whole type |
| Classifier.NormalizationFactor | aws-ec2-reserved-report.py:33-39 | the factor is non-negative, and positive exactly when there is a second dot-separated piece and the table knows it |
| Classifier.ClassifyUndotted | aws-ec2-reserved-report.py:33-46 | a type without a dot is its own family and weighs 0 (the caught IndexError) |
| Classifier.ClassifyDotted | aws-ec2-reserved-report.py:33-46 | for `family.size` and `family.size.more`, the family is the part before the first dot and the factor is the table weight of `size` |
| Classifier.FamilyIs | aws-ec2-reserved-report.py:41-46 | the family is f exactly when the type is f or starts with f followed by a dot |
| Classifier.FamilyUnknown | aws-ec2-reserved-report.py:43-46 | the family is "Unknown" only for a type that is "Unknown" or starts with "Unknown.", so the fallback at the exception handler never fires |
| Records.ClassifyInstance | aws-ec2-reserved-report.py:57-65 | an instance record keeps the instance's id and type and carries its type's factor and family |
| Records.ClassifyReservation | aws-ec2-reserved-report.py:76-90 | a reservation record has its type's factor and family, its count and end, total factor = factor × count, and is convertible exactly when the offering class is "convertible" |
| Records.GetRunningInstances | aws-ec2-reserved-report.py:54-66 | one classified record per instance of every reservation group, in the same order and number as the flattened input |
| Records.GetReservedInstances | aws-ec2-reserved-report.py:74-91 | one classified record per reservation, same order and length, each consistent (total = factor × count) |
| Aggregation.RunningStep | aws-ec2-reserved-report.py:103 | adding one instance adds its factor to its own family's entry, created at 0 if missing, and changes no other entry |
| Aggregation.ReservedStep | aws-ec2-reserved-report.py:123-127 | adding one reservation adds its total factor to exactly one bucket of its family's entry, created at (0, 0) if missing |
| Aggregation.AggregateRunning | aws-ec2-reserved-report.py:93-105 | the loop's map equals the reference per-family sums of the instances' factors, and its total equals the sum of all factors |
| Aggregation.ExpiryFlags | aws-ec2-reserved-report.py:112-116 | one flag per reservation, in order, set exactly when that reservation ends at most five days after now |
| Aggregation.AggregateReserved | aws-ec2-reserved-report.py:107-129 | the loop's map equals the reference per-family fixed and convertible sums, its total equals the sum of all total factors, and its flags are the expiry flags of the reservations in order |
| Aggregation.RunningFamilies | aws-ec2-reserved-report.py:96-105 | the running map has an entry for a family exactly when some instance belongs to it |
| Aggregation.ReservedFamilies | aws-ec2-reserved-report.py:110-129 | the reserved map has an entry for a family exactly when some reservation belongs to it |
| Aggregation.RunningOrderIndependent | aws-ec2-reserved-report.py:97-103 | permuting the instances changes neither the per-family totals nor the grand total |
| Aggregation.ReservedOrderIndependent | aws-ec2-reserved-report.py:112-127 | permuting the reservations changes neither the per-family buckets nor the grand total |
| Aggregation.RunningGrandTotal | aws-ec2-reserved-report.py:102-104 | the printed running total equals the sum of the per-family totals over any list that names each family once |
| Aggregation.BucketsPartition | aws-ec2-reserved-report.py:123-127 | a family's fixed plus convertible buckets hold exactly the sum of its reservations' total factors |
| Aggregation.ReservedGrandTotal | aws-ec2-reserved-report.py:123-128 | the printed reserved total equals the sum over families of fixed plus convertible |
| Aggregation.RunningNonNegative | aws-ec2-reserved-report.py:96-103 | with non-negative factors every running total is non-negative |
| Aggregation.ReservedNonNegative | aws-ec2-reserved-report.py:110-127 | with consistent records, non-negative factors and counts, both buckets of every family are non-negative |
| Expiry.Expiring | aws-ec2-reserved-report.py:113-115 | a reservation is flagged exactly when it ends no later than five days after now, so one that has already ended is always flagged |
| Expiry.ExpiryBoundary | aws-ec2-reserved-report.py:113-115 | four days and exactly five days left are flagged; five days and one second, and six days, are not |
| Expiry.ExpiringEarlier | aws-ec2-reserved-report.py:113-115 | a reservation ending no later than a flagged one is flagged, and so is one that has already ended |
| Reconciliation.Verdict | aws-ec2-reserved-report.py:147-180 | UnderCovered exactly when running exceeds fixed plus convertible, with that excess as shortfall; CoveredByConvertible exactly when fixed < running ≤ fixed + convertible; OverCovered exactly when fixed exceeds running, by that amount; with running = fixed, unused convertible when convertible > 0, otherwise exact match |
| Reconciliation.VerdictFollowsAllocation | aws-ec2-reserved-report.py:143-180 | with non-negative totals the verdict agrees with applying fixed reservations first and convertible ones second: shortfall = capacity left uncovered, surplus = idle fixed capacity, unused = idle convertible capacity |
| Reconciliation.CoveredIffReserved | aws-ec2-reserved-report.py:157-167 | for non-negative convertible capacity, a family is not under-covered exactly when running ≤ fixed + convertible |
| Reconciliation.VerdictExamples | aws-ec2-reserved-report.py:157-180 | the five worked cases (10/4/0, 10/4/8, 4/8/0, 4/4/3, 4/4/0) give the expected verdicts and amounts |
| Ordering.Below | aws-ec2-reserved-report.py:136 | the string order of `sorted`: strict, a proper prefix comes before the longer string, and the first code point never decreases from the lower string to the higher one, and decides when it differs |
| Ordering.BelowTransitive | aws-ec2-reserved-report.py:136 | the string order is transitive |
| Ordering.BelowTotal | aws-ec2-reserved-report.py:136 | any two different strings are ordered one way or the other |
| Ordering.Sorted | aws-ec2-reserved-report.py:136 | `sorted` of a set of families: strictly ascending, exactly the set's members, one entry per member |
| Ordering.AscendingUnique | aws-ec2-reserved-report.py:136 | two strictly ascending lists of the same strings are equal, so the visiting order is determined |
| Reconciliation.Line | aws-ec2-reserved-report.py:137-180 | one comparison line: the family's totals, diff = running − fixed; over-covered exactly when diff < 0, with surplus −diff; under-covered or covered by convertible exactly when diff > 0, with shortfall diff − convertible; a match verdict exactly when diff = 0 |
| Reconciliation.LinesFor | aws-ec2-reserved-report.py:135-146 | for a list of families, one comparison line per family in the same order, each computed from that family's totals with 0 for a missing side |
| Reconciliation.CompareInstances | aws-ec2-reserved-report.py:131-181 | one line per family of the union of both maps, in strictly ascending order, each with running, fixed and convertible defaulting to 0, diff = running − fixed, and its verdict |
| Reconciliation.ReconciledUnique | aws-ec2-reserved-report.py:134-141 | any two results satisfying the comparison's postcondition on the same input are identical, order included |
| Reconciliation.ReportAccountsForEverything | aws-ec2-reserved-report.py:134-141 | the comparison of the aggregated records accounts for all running capacity and all reserved capacity exactly once: its running column sums to the running total and its fixed-plus-convertible column to the reserved total |

## Left out

- The boto3 session and client and the `describe_instances` / `describe_reserved_instances` calls with their filters (lines 50-52, 70-72, 185-186) are network I/O. The model takes the fetched records as sequences.
- colorama initialisation, colours and all printing are presentation only (lines 3, 7, 94, 98-101, 104, 108, 116-122, 128, 131, 149-155, 161-163, 165-167, 170-172, 176-181). The verdict datatype and the report lines stand in for the messages. The grand totals and expiry flags are returned instead of printed.
- `datetime.now` and `strftime` (lines 111, 114) are the external clock and date formatting. `now` is a parameter, and times are whole seconds, not timedelta's microseconds.
- Python floating point is not modelled. Every table weight is a multiple of 0.25, and sums are exact `real`s.
- `main` (lines 184-198) is entry-point wiring.
- Python's dictionaries are not modelled by insertion order. The maps are Dafny maps, which is all the report relies on: the comparison sorts the keys.
