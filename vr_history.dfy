/** The VR overlay's history timeline: the records fetched from the backend
    merged with a fixed fallback list (`HISTORY_FALLBACK`,
    `mergeHistoryWithFallback`). */
module VrHistory {
  import opened Wrappers
  import Text

  /** One history record. A field missing from a fetched row is "". */
  datatype HistoryEvent = HistoryEvent(id: int, yearDate: string, title: string, description: string, image: string)

  const HistoryFallback: seq<HistoryEvent> := [
    HistoryEvent(1, "07/09/1953", "Thành lập Đại học Bưu điện – Vô tuyến điện", "Tiền thân của Học viện ngày nay.", "moc-1.jpg"),
    HistoryEvent(2, "17/09/1966", "Thành lập Viện Khoa học Kỹ thuật Bưu điện RIPT", "", "moc-2.jpg"),
    HistoryEvent(3, "08/04/1975", "Thành lập Viện Kinh tế Bưu điện ERIPT", "", "moc-3.jpg"),
    HistoryEvent(4, "28/05/1988", "Thành lập Trung tâm Đào tạo BCVT II (PTTC2)", "", "moc-4.jpg"),
    HistoryEvent(5, "11/07/1997", "Thành lập Học viện Công nghệ Bưu chính Viễn thông", "Sắp xếp lại 4 đơn vị: PTTC1, PTTC2, Viện KHKT Bưu điện, Viện Kinh tế Bưu điện.", "moc-5.jpg"),
    HistoryEvent(6, "17/09/1997", "Công bố Quyết định thành lập", "Chính thức ra mắt Học viện Công nghệ BCVT.", "moc-6.jpg"),
    HistoryEvent(7, "22/03/1999", "Thành lập Trung tâm CDIT", "Trung tâm Công nghệ thông tin trực thuộc Học viện.", "moc-7.jpg"),
    HistoryEvent(8, "01/07/2014", "Chuyển về Bộ Thông tin và Truyền thông", "Điều chuyển từ Tập đoàn VNPT về Bộ TTTT, tự chủ tài chính.", "moc-8.jpg"),
    HistoryEvent(9, "27/02/2025", "Quy hoạch trở thành ĐH trọng điểm Quốc gia", "Theo Quyết định số 452/QĐ-TTg của Thủ tướng Chính phủ.", "moc-9.jpg")
  ]

  /** The de-duplication key: "<year_date>__<title>", lower-cased. */
  function KeyOf(e: HistoryEvent): string {
    Text.Lower(e.yearDate + "__" + e.title)
  }

  /** The keys present in a list (the `existing` set). */
  function KeysOf(list: seq<HistoryEvent>): (ks: set<string>)
    ensures forall e :: e in list ==> KeyOf(e) in ks
  {
    set e | e in list :: KeyOf(e)
  }

  /** `fallback.filter(item => !existing.has(keyOf(item)))` */
  function MissingFrom(fallback: seq<HistoryEvent>, existing: set<string>): (r: seq<HistoryEvent>)
    ensures |r| <= |fallback|
    ensures forall e :: e in r <==> e in fallback && KeyOf(e) !in existing
  {
    if fallback == [] then []
    else
      var rest := MissingFrom(fallback[1..], existing);
      if KeyOf(fallback[0]) in existing then rest else [fallback[0]] + rest
  }

  /** `mergeHistoryWithFallback(list)`: `None` stands for a value that is not
      an array, which counts as the empty list. */
  function MergeHistoryWithFallback(list: Option<seq<HistoryEvent>>): seq<HistoryEvent> {
    MergeWith(HistoryFallback, list)
  }

  /** The merge against a given fallback list. */
  function MergeWith(fallback: seq<HistoryEvent>, list: Option<seq<HistoryEvent>>): seq<HistoryEvent> {
    var base := list.GetOr([]);
    base + MissingFrom(fallback, KeysOf(base))
  }

  /** `a` is `b` with some elements dropped, order kept. */
  predicate SubsequenceOf<T(==)>(a: seq<T>, b: seq<T>)
    decreases |b|
  {
    a == [] || (b != [] && (SubsequenceOf(a, b[1..]) || (a[0] == b[0] && SubsequenceOf(a[1..], b[1..]))))
  }

  lemma {:induction false} MissingFromIsSubsequence(fallback: seq<HistoryEvent>, existing: set<string>)
    ensures SubsequenceOf(MissingFrom(fallback, existing), fallback)
  {
    if fallback != [] {
      MissingFromIsSubsequence(fallback[1..], existing);
      var rest := MissingFrom(fallback[1..], existing);
      if KeyOf(fallback[0]) !in existing {
        assert ([fallback[0]] + rest)[1..] == rest;
      }
    }
  }

  // ---------------------------------------------------------------------------
  // Properties
  // ---------------------------------------------------------------------------

  /** The input list comes first, unchanged; what follows is exactly the
      fallback records whose key the input lacks, in fallback order. */
  lemma MergeShape(list: Option<seq<HistoryEvent>>)
    ensures var base, r := list.GetOr([]), MergeHistoryWithFallback(list);
      && |base| <= |r| && r[..|base|] == base
      && (forall e :: e in r[|base|..] <==> e in HistoryFallback && KeyOf(e) !in KeysOf(base))
      && SubsequenceOf(r[|base|..], HistoryFallback)
  {
    var base := list.GetOr([]);
    var r := MergeHistoryWithFallback(list);
    assert r[|base|..] == MissingFrom(HistoryFallback, KeysOf(base));
    MissingFromIsSubsequence(HistoryFallback, KeysOf(base));
  }

  /** A value that is not an array merges to the fallback list. */
  lemma MergeOfNonArray()
    ensures MergeHistoryWithFallback(None) == HistoryFallback
  {
    MergeWithOfNonArray(HistoryFallback);
  }

  lemma MergeWithOfNonArray(fallback: seq<HistoryEvent>)
    ensures MergeWith(fallback, None) == fallback
  {
    assert KeysOf([]) == {};
    MissingFromNothingExisting(fallback);
    assert [] + fallback == fallback;
  }

  lemma {:induction false} MissingFromNothingExisting(fallback: seq<HistoryEvent>)
    ensures MissingFrom(fallback, {}) == fallback
  {
    if fallback != [] {
      MissingFromNothingExisting(fallback[1..]);
      assert [fallback[0]] + fallback[1..] == fallback;
    }
  }

  /** When every fallback key is already present nothing is added. */
  lemma MissingFromCovered(fallback: seq<HistoryEvent>, existing: set<string>)
    requires forall e :: e in fallback ==> KeyOf(e) in existing
    ensures MissingFrom(fallback, existing) == []
  {
  }

  /** Merging the fallback list with itself adds nothing. */
  lemma MergeOfFallback()
    ensures MergeHistoryWithFallback(Some(HistoryFallback)) == HistoryFallback
  {
    MergeWithOfItself(HistoryFallback);
  }

  lemma MergeWithOfItself(fallback: seq<HistoryEvent>)
    ensures MergeWith(fallback, Some(fallback)) == fallback
  {
    MissingFromCovered(fallback, KeysOf(fallback));
    assert fallback + [] == fallback;
  }

  /** Merging is idempotent. */
  lemma MergeIdempotent(list: Option<seq<HistoryEvent>>)
    ensures MergeHistoryWithFallback(Some(MergeHistoryWithFallback(list))) == MergeHistoryWithFallback(list)
  {
    var base := list.GetOr([]);
    var m := MergeHistoryWithFallback(list);
    forall e | e in HistoryFallback ensures KeyOf(e) in KeysOf(m) {
      if KeyOf(e) !in KeysOf(base) {
        assert e in MissingFrom(HistoryFallback, KeysOf(base));
        assert e in m;
      } else {
        var x :| x in base && KeyOf(x) == KeyOf(e);
        assert x in m;
      }
    }
    MissingFromCovered(HistoryFallback, KeysOf(m));
    assert m + [] == m;
  }
}
