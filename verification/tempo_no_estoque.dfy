/** `class_tempo_no_estoque`, the time-in-stock classification of the
    vehicle inventory, and the properties the dashboard relies on: eight
    buckets, numbered labels, one label per bucket, and labels whose string
    order is the order of duration. */
module TempoNoEstoque {
  import opened Wrappers
  import opened Text
  import opened Frame
  import opened Lookup

  /** `class_tempo_no_estoque` */
  const ClassTempo: map<string, string> := map[
    "MENOS DE 1 MES" := "1 - MENOS DE 1 MES",
    "1 A 3 MESES" := "2 - 1 A 3 MESES",
    "3 A 6 MESES" := "3 - 3 A 6 MESES",
    "6 A 9 MESES" := "4 - 6 A 9 MESES",
    "9 A 12 MESES" := "5 - 9 A 12 MESES",
    "1 A 2 ANOS" := "6 - 1 A 2 ANOS",
    "2 A 3 ANOS" := "7 - 2 A 3 ANOS",
    "MAIS DE 3 ANOS" := "8 - MAIS DE 3 ANOS"
  ]

  /** The eight time-in-stock buckets, each with the fewest months a
      vehicle in it has spent in stock. */
  const Buckets: seq<string> := [
    "MENOS DE 1 MES", "1 A 3 MESES", "3 A 6 MESES", "6 A 9 MESES",
    "9 A 12 MESES", "1 A 2 ANOS", "2 A 3 ANOS", "MAIS DE 3 ANOS"
  ]
  const MinMonths: seq<int> := [0, 1, 3, 6, 9, 12, 24, 36]

  lemma ClassTempoKeySet()
    ensures ClassTempo.Keys == set k | k in Buckets
  {
  }

  lemma BucketsDistinct()
    ensures forall i, j :: 0 <= i < j < |Buckets| ==> Buckets[i] != Buckets[j]
  {
  }

  /** The table has exactly the eight buckets as keys. */
  lemma ClassTempoKeys()
    ensures forall k :: k in ClassTempo <==> k in Buckets
    ensures |ClassTempo| == |Buckets| == 8
  {
    ClassTempoKeySet();
    BucketsDistinct();
    DistinctSize(Buckets);
  }

  /** Bucket number `i`, counting from 1 in duration order, is labelled
      "i - bucket". */
  predicate LabelledInOrder(i: int)
    requires 0 <= i < |Buckets|
  {
    Buckets[i] in ClassTempo && ClassTempo[Buckets[i]] == [DigitChar(i + 1)] + " - " + Buckets[i]
  }

  lemma ClassTempoLabelsFirst()
    ensures LabelledInOrder(0) && LabelledInOrder(1)
  {
  }

  lemma ClassTempoLabelsSecond()
    ensures LabelledInOrder(2) && LabelledInOrder(3)
  {
  }

  lemma ClassTempoLabelsThird()
    ensures LabelledInOrder(4) && LabelledInOrder(5)
  {
  }

  lemma ClassTempoLabelsFourth()
    ensures LabelledInOrder(6) && LabelledInOrder(7)
  {
  }

  /** Every bucket carries its duration rank as the label's first digit. */
  lemma ClassTempoLabels()
    ensures forall i :: 0 <= i < |Buckets| ==> LabelledInOrder(i)
  {
    ClassTempoLabelsFirst();
    ClassTempoLabelsSecond();
    ClassTempoLabelsThird();
    ClassTempoLabelsFourth();
    forall i | 0 <= i < |Buckets|
      ensures LabelledInOrder(i)
    {
      if i < 2 {
      } else if i < 4 {
      } else if i < 6 {
      } else {
      }
    }
  }

  /** The buckets are listed in increasing duration. */
  lemma BucketsIncrease()
    ensures |MinMonths| == |Buckets|
    ensures forall i, j :: 0 <= i < j < |MinMonths| ==> MinMonths[i] < MinMonths[j]
  {
  }

  /** No two buckets share a label. */
  lemma ClassTempoInjective()
    ensures Injective(ClassTempo)
  {
  }

  /** Sorting the labels as strings, as the dashboard does, puts the
      buckets in order of duration. */
  lemma LabelsSortByDuration(i: int, j: int)
    requires 0 <= i < |Buckets| && 0 <= j < |Buckets|
    ensures LexLess(ClassTempo[Buckets[i]], ClassTempo[Buckets[j]]) <==> MinMonths[i] < MinMonths[j]
  {
    ClassTempoLabels();
    BucketsIncrease();
    var a, b := ClassTempo[Buckets[i]], ClassTempo[Buckets[j]];
    assert a[0] == DigitChar(i + 1) && b[0] == DigitChar(j + 1);
    if i == j {
      LexLessIrreflexive(a);
    } else {
      LexLessByFirst(a, b);
    }
  }

  lemma {:induction false} LexLessIrreflexive(a: string)
    ensures !LexLess(a, a)
    decreases |a|
  {
    if |a| > 0 {
      LexLessIrreflexive(a[1..]);
    }
  }

  /** No label is itself a key, so classifying a classified column changes
      nothing. */
  lemma ClassTempoIdempotent()
    ensures forall k :: k in ClassTempo ==> ClassTempo[k] !in ClassTempo
    ensures Idempotent(ClassTempo)
  {
  }

  /** Classifying twice equals classifying once. */
  lemma ClassifyTwice(c: Cell)
    ensures Replace(ClassTempo, Replace(ClassTempo, c)) == Replace(ClassTempo, c)
  {
    ClassTempoIdempotent();
    ReplaceTwiceIff(ClassTempo);
  }
}
