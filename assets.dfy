/** The bundled resources the two galleries cycle through, as opaque handles. */
module Assets {
  import CyclicIndex

  /** The drawable resources of the photo gallery, in display order. */
  datatype Photo =
    | Fotikoyo | Arbol | Campitooo | Hands | Burro | Haircut | Bocata | Beajedrez
    | Awela | Arbol2 | Libelula | Edifisio | Drink | Corcho | Countryside | Virgin
    | Vaca | Pescando | Perrito2 | Redaali | Torcal | Negative0_06_06_1

  /** The raw resources of the video gallery, in display order. */
  datatype Video = Dolor | Blankito

  const Photos: seq<Photo> := [
    Fotikoyo, Arbol, Campitooo, Hands, Burro, Haircut, Bocata, Beajedrez,
    Awela, Arbol2, Libelula, Edifisio, Drink, Corcho, Countryside, Virgin,
    Vaca, Pescando, Perrito2, Redaali, Torcal, Negative0_06_06_1
  ]

  const Videos: seq<Video> := [Dolor, Blankito]

  /** 22 presses of Next bring the photo gallery back to the photo it started on, and fewer do not. */
  lemma PhotoCycle(i: int, k: nat)
    requires 0 <= i < |Photos|
    ensures |Photos| == 22
    ensures CyclicIndex.NextTimes(i, |Photos|, 22) == i
    ensures 0 < k < 22 ==> CyclicIndex.NextTimes(i, |Photos|, k) != i
  {
    CyclicIndex.FullCycle(i, |Photos|);
    if 0 < k < 22 {
      CyclicIndex.CycleIsMinimal(i, |Photos|, k);
    }
  }

  /** 2 presses of Next bring the video gallery back to the video it started on, and 1 does not. */
  lemma VideoCycle(i: int)
    requires 0 <= i < |Videos|
    ensures |Videos| == 2
    ensures CyclicIndex.NextTimes(i, |Videos|, 2) == i
    ensures CyclicIndex.NextTimes(i, |Videos|, 1) != i
  {
    CyclicIndex.FullCycle(i, |Videos|);
    CyclicIndex.CycleIsMinimal(i, |Videos|, 1);
  }
}
