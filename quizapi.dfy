/**
 * The quiz data service: a flat list of question records from the
 * question store is regrouped into one bucket per stage, each bucket
 * sorted by question number. The fetch itself is an input here: a
 * response carries its `ok` flag, its status and its decoded body.
 */
module QuizApi {
  import opened Base
  import opened Stages

  /** The stage field of a record, as the store hands it back: a number or a text. */
  datatype StageField = Number(n: int) | Text(s: string)

  /** A question record as stored, with its store id and stage. */
  datatype RawItem = RawItem(
    id: string, stage: StageField, questionNumber: int,
    question: string, options: map<string, string>, answer: string, explanation: string)

  /** A question as the quiz reads it. */
  datatype Question = Question(
    questionNumber: int, question: string, options: map<string, string>, answer: string, explanation: string)

  /** What a fetch resolves to. */
  datatype Response = Response(ok: bool, status: int, body: seq<RawItem>)

  /** The stage field as it reads inside a template string. */
  function StageText(f: StageField): string
  {
    match f
    case Number(n) => IntString(n)
    case Text(s) => s
  }

  /** The bucket a record is routed to: "Stage " followed by its stage. */
  function StageKey(item: RawItem): string
  {
    "Stage " + StageText(item.stage)
  }

  /** The five fields a stored question keeps; the id and the stage are dropped. */
  function Project(item: RawItem): Question
  {
    Question(item.questionNumber, item.question, item.options, item.answer, item.explanation)
  }

  /** The message of the error a non-OK response raises. */
  function HttpError(status: int): string
  {
    "HTTP error! status: " + IntString(status)
  }

  /** Records share a bucket exactly when their stages read the same. */
  lemma StageKeyInjective(a: RawItem, b: RawItem)
    ensures StageKey(a) == StageKey(b) <==> StageText(a.stage) == StageText(b.stage)
  {
    if StageKey(a) == StageKey(b) {
      assert StageKey(a)[6..] == StageKey(b)[6..];
    }
  }

  /** Different statuses raise different messages, so the message names the status. */
  lemma HttpErrorInjective(a: int, b: int)
    requires HttpError(a) == HttpError(b)
    ensures a == b
  {
    assert HttpError(a)[20..] == HttpError(b)[20..];
    IntStringInjective(a, b);
  }

  // ---------------------------------------------------------------------
  // Routing, as a specification

  /** The projections of the records routed to bucket `k`, in the order they come. */
  function Routed(data: seq<RawItem>, k: string): seq<Question>
  {
    if data == [] then []
    else Routed(data[..|data| - 1], k) + (if StageKey(data[|data| - 1]) == k then [Project(data[|data| - 1])] else [])
  }

  /** The projections of every record whose bucket is among `keys`, in the order they come. */
  function KeptIn(data: seq<RawItem>, keys: seq<string>): seq<Question>
  {
    if data == [] then []
    else KeptIn(data[..|data| - 1], keys) + (if StageKey(data[|data| - 1]) in keys then [Project(data[|data| - 1])] else [])
  }

  /** What the buckets named by `keys` hold together. */
  function AllRouted(data: seq<RawItem>, keys: seq<string>): multiset<Question>
  {
    if keys == [] then multiset{} else AllRouted(data, keys[..|keys| - 1]) + multiset(Routed(data, keys[|keys| - 1]))
  }

  /** A record with a numeric stage has a bucket exactly when the number is 1 to 5. */
  lemma NumberStageKept(item: RawItem)
    requires item.stage.Number?
    ensures StageKey(item) in StageNames <==> 1 <= item.stage.n <= 5
  {
    var n := item.stage.n;
    var key := StageKey(item);
    if 1 <= n <= 5 {
      assert key == StageNames[n - 1];
    }
    if key in StageNames {
      var j :| 0 <= j < 5 && StageNames[j] == key;
      assert StageNames[j] == "Stage " + IntString(j + 1);
      assert IntString(n) == key[6..] == IntString(j + 1);
      IntStringInjective(n, j + 1);
    }
  }

  /** A record whose bucket does not exist is in no bucket. */
  lemma {:induction false} UnknownStageDropped(data: seq<RawItem>, k: string)
    requires forall i :: 0 <= i < |data| ==> StageKey(data[i]) != k
    ensures Routed(data, k) == []
    decreases |data|
  {
    if data != [] {
      UnknownStageDropped(data[..|data| - 1], k);
    }
  }

  /** One more record goes to the end of its own bucket and leaves every other bucket alone. */
  lemma RoutedStep(data: seq<RawItem>, x: RawItem, k: string)
    ensures Routed(data + [x], k) == Routed(data, k) + (if StageKey(x) == k then [Project(x)] else [])
  {
    assert (data + [x])[..|data|] == data;
  }

  /** One more record adds its projection to the one bucket named by its key, if any. */
  lemma {:induction false} AllRoutedStep(data: seq<RawItem>, x: RawItem, keys: seq<string>)
    requires Distinct(keys)
    ensures AllRouted(data + [x], keys) ==
      AllRouted(data, keys) + (if StageKey(x) in keys then multiset{Project(x)} else multiset{})
    decreases |keys|
  {
    if keys != [] {
      var init, last := keys[..|keys| - 1], keys[|keys| - 1];
      DistinctInit(keys);
      AllRoutedStep(data, x, init);
      RoutedStepCount(data, x, last);
      var k, p := StageKey(x), multiset{Project(x)};
      SplitOnLast(keys, k, p);
      Regroup(AllRouted(data, init), multiset(Routed(data, last)),
        if k in init then p else multiset{}, if k == last then p else multiset{});
    }
  }

  /** One more record adds its projection to bucket `k` exactly when it belongs there. */
  lemma RoutedStepCount(data: seq<RawItem>, x: RawItem, k: string)
    ensures multiset(Routed(data + [x], k)) ==
      multiset(Routed(data, k)) + (if StageKey(x) == k then multiset{Project(x)} else multiset{})
  {
    RoutedStep(data, x, k);
  }

  /** With distinct names, a name is among the others or is the last one, never both. */
  lemma SplitOnLast(keys: seq<string>, k: string, p: multiset<Question>)
    requires Distinct(keys) && keys != []
    ensures (if k in keys[..|keys| - 1] then p else multiset{}) + (if k == keys[|keys| - 1] then p else multiset{}) ==
      (if k in keys then p else multiset{})
  {
    DistinctInit(keys);
    assert keys == keys[..|keys| - 1] + [keys[|keys| - 1]];
  }

  /** Adding two parts to two sums adds their total to the sum. */
  lemma Regroup(a: multiset<Question>, b: multiset<Question>, c: multiset<Question>, d: multiset<Question>)
    ensures (a + c) + (b + d) == (a + b) + (c + d)
  {
    forall y
      ensures ((a + c) + (b + d))[y] == ((a + b) + (c + d))[y]
    {
    }
  }

  /**
   * The buckets split the kept records: when no two bucket names coincide,
   * each record with a bucket lands in exactly one, so together the buckets
   * hold the kept records once each.
   */
  lemma {:induction false} BucketsPartition(data: seq<RawItem>, keys: seq<string>)
    requires Distinct(keys)
    ensures multiset(KeptIn(data, keys)) == AllRouted(data, keys)
    decreases |data|
  {
    if data == [] {
      AllRoutedEmpty(keys);
    } else {
      var init := data[..|data| - 1];
      BucketsPartition(init, keys);
      AllRoutedStep(init, data[|data| - 1], keys);
      assert data == init + [data[|data| - 1]];
    }
  }

  lemma {:induction false} AllRoutedEmpty(keys: seq<string>)
    ensures AllRouted([], keys) == multiset{}
    decreases |keys|
  {
    if keys != [] {
      AllRoutedEmpty(keys[..|keys| - 1]);
    }
  }

  /** The five stage buckets together hold every record that has a bucket, once each. */
  lemma StageBucketsPartition(data: seq<RawItem>)
    ensures multiset(KeptIn(data, StageNames)) == AllRouted(data, StageNames)
  {
    StageNamesDistinct();
    BucketsPartition(data, StageNames);
  }

  // ---------------------------------------------------------------------
  // Sorting by question number

  predicate SortedByNumber(s: seq<Question>)
  {
    forall i, j :: 0 <= i < j < |s| ==> s[i].questionNumber <= s[j].questionNumber
  }

  /** Puts `q` after every entry whose number is not above its own, as a stable sort does. */
  function Insert(s: seq<Question>, q: Question): seq<Question>
  {
    if s == [] || s[|s| - 1].questionNumber <= q.questionNumber then s + [q]
    else Insert(s[..|s| - 1], q) + [s[|s| - 1]]
  }

  /** The stable sort by ascending question number. */
  function SortByNumber(s: seq<Question>): seq<Question>
  {
    if s == [] then [] else Insert(SortByNumber(s[..|s| - 1]), s[|s| - 1])
  }

  lemma {:induction false} InsertPermutes(s: seq<Question>, q: Question)
    ensures multiset(Insert(s, q)) == multiset(s) + multiset{q}
    decreases |s|
  {
    if s == [] || s[|s| - 1].questionNumber <= q.questionNumber {
    } else {
      var t := s[..|s| - 1];
      InsertPermutes(t, q);
      assert s == t + [s[|s| - 1]];
    }
  }

  /** Inserting under a bound keeps every entry under it. */
  lemma {:induction false} InsertBound(s: seq<Question>, q: Question, m: int)
    requires forall i :: 0 <= i < |s| ==> s[i].questionNumber <= m
    requires q.questionNumber <= m
    ensures |Insert(s, q)| == |s| + 1
    ensures forall i :: 0 <= i < |Insert(s, q)| ==> Insert(s, q)[i].questionNumber <= m
    decreases |s|
  {
    if !(s == [] || s[|s| - 1].questionNumber <= q.questionNumber) {
      InsertBound(s[..|s| - 1], q, m);
    }
  }

  lemma {:induction false} InsertSorted(s: seq<Question>, q: Question)
    requires SortedByNumber(s)
    ensures SortedByNumber(Insert(s, q))
    decreases |s|
  {
    if s == [] || s[|s| - 1].questionNumber <= q.questionNumber {
    } else {
      var t := s[..|s| - 1];
      var last := s[|s| - 1];
      InsertSorted(t, q);
      InsertBound(t, q, last.questionNumber);
      var r := Insert(t, q);
      assert Insert(s, q) == r + [last];
    }
  }

  /** Sorting yields the bucket's own entries, ascending by question number. */
  lemma {:induction false} SortByNumberCorrect(s: seq<Question>)
    ensures SortedByNumber(SortByNumber(s))
    ensures multiset(SortByNumber(s)) == multiset(s)
    decreases |s|
  {
    if s != [] {
      var t := s[..|s| - 1];
      SortByNumberCorrect(t);
      InsertSorted(SortByNumber(t), s[|s| - 1]);
      InsertPermutes(SortByNumber(t), s[|s| - 1]);
      assert s == t + [s[|s| - 1]];
    }
  }

  /** The sort of one bucket, as a loop that inserts each entry in turn into a new sequence. */
  method SortBucket(b: seq<Question>) returns (r: seq<Question>)
    ensures r == SortByNumber(b)
    ensures SortedByNumber(r) && multiset(r) == multiset(b)
  {
    r := [];
    var i := 0;
    while i < |b|
      invariant 0 <= i <= |b|
      invariant r == SortByNumber(b[..i])
    {
      assert b[..i + 1][..i] == b[..i];
      r := Insert(r, b[i]);
      i := i + 1;
    }
    assert b[..i] == b;
    SortByNumberCorrect(b);
  }

  // ---------------------------------------------------------------------
  // The transform

  /** The five empty buckets the transform starts from. */
  function EmptyBuckets(): (m: map<string, seq<Question>>)
    ensures m.Keys == set k | k in StageNames
    ensures forall k :: k in m ==> m[k] == []
  {
    map["Stage 1" := [], "Stage 2" := [], "Stage 3" := [], "Stage 4" := [], "Stage 5" := []]
  }

  /** Pushes every record whose bucket exists onto the end of that bucket. */
  method GroupByStage(data: seq<RawItem>) returns (buckets: map<string, seq<Question>>)
    ensures buckets.Keys == set k | k in StageNames
    ensures forall k :: k in buckets ==> buckets[k] == Routed(data, k)
  {
    buckets := GroupInto(data, EmptyBuckets());
  }

  /** The grouping loop, over whatever empty buckets it is given. */
  method GroupInto(data: seq<RawItem>, empty: map<string, seq<Question>>) returns (buckets: map<string, seq<Question>>)
    requires forall k :: k in empty ==> empty[k] == []
    ensures buckets.Keys == empty.Keys
    ensures forall k :: k in buckets ==> buckets[k] == Routed(data, k)
  {
    buckets := empty;
    var i := 0;
    assert data[..0] == [];
    while i < |data|
      invariant 0 <= i <= |data|
      invariant buckets.Keys == empty.Keys
      invariant forall k :: k in buckets ==> buckets[k] == Routed(data[..i], k)
    {
      var item := data[i];
      var key := StageKey(item);
      PushRouted(buckets, data[..i], item);
      assert data[..i + 1] == data[..i] + [item];
      if key in buckets {
        buckets := buckets[key := buckets[key] + [Project(item)]];
      }
      i := i + 1;
    }
    assert data[..i] == data;
  }

  /** Pushing one more record onto its bucket, if it has one, keeps every bucket equal to its routed records. */
  lemma PushRouted(buckets: map<string, seq<Question>>, prefix: seq<RawItem>, item: RawItem)
    requires forall k :: k in buckets ==> buckets[k] == Routed(prefix, k)
    ensures var key := StageKey(item);
      var pushed := if key in buckets then buckets[key := buckets[key] + [Project(item)]] else buckets;
      pushed.Keys == buckets.Keys && forall k :: k in pushed ==> pushed[k] == Routed(prefix + [item], k)
  {
    forall k {
      RoutedStep(prefix, item, k);
    }
  }

  /** Sorts each of the five buckets by question number, leaving the keys as they are. */
  method SortBuckets(grouped: map<string, seq<Question>>) returns (buckets: map<string, seq<Question>>)
    requires grouped.Keys == set k | k in StageNames
    ensures buckets.Keys == grouped.Keys
    ensures forall k :: k in buckets ==> buckets[k] == SortByNumber(grouped[k])
  {
    StageNamesDistinct();
    buckets := SortEach(grouped, StageNames);
  }

  /** The sorting loop, over the bucket names in the order given. */
  method SortEach(grouped: map<string, seq<Question>>, keys: seq<string>) returns (buckets: map<string, seq<Question>>)
    requires Distinct(keys) && grouped.Keys == set k | k in keys
    ensures buckets.Keys == grouped.Keys
    ensures forall k :: k in buckets ==> buckets[k] == SortByNumber(grouped[k])
  {
    buckets := grouped;
    var j := 0;
    while j < |keys|
      invariant 0 <= j <= |keys|
      invariant buckets.Keys == grouped.Keys
      invariant forall i :: 0 <= i < j ==> buckets[keys[i]] == SortByNumber(grouped[keys[i]])
      invariant forall i :: j <= i < |keys| ==> buckets[keys[i]] == grouped[keys[i]]
    {
      var name := keys[j];
      var sorted := SortBucket(buckets[name]);
      buckets := buckets[name := sorted];
      j := j + 1;
    }
  }

  /**
   * Groups the records by stage, then sorts every bucket: the result has
   * exactly the five stage keys, and each bucket is the sorted list of the
   * projections of the records routed to it.
   */
  method TransformQuestions(data: seq<RawItem>) returns (buckets: map<string, seq<Question>>)
    ensures buckets.Keys == set k | k in StageNames
    ensures forall k :: k in buckets ==> buckets[k] == SortByNumber(Routed(data, k))
    ensures forall k :: k in buckets ==>
      SortedByNumber(buckets[k]) && multiset(buckets[k]) == multiset(Routed(data, k))
  {
    var grouped := GroupByStage(data);
    buckets := SortBuckets(grouped);
    forall k | k in buckets
      ensures SortedByNumber(buckets[k]) && multiset(buckets[k]) == multiset(Routed(data, k))
    {
      SortByNumberCorrect(Routed(data, k));
    }
  }

  /** Fetches every question: a non-OK response is an error carrying its status; otherwise the regrouped data. */
  method GetAllQuestions(response: Response) returns (r: Result<map<string, seq<Question>>>)
    ensures !response.ok ==> r == Failure(HttpError(response.status))
    ensures r.Failure? <==> GetQuestionsByStage(response).Failure?
    ensures r.Failure? ==> r.error == GetQuestionsByStage(response).error
    ensures response.ok ==> r.Success? && r.value.Keys == set k | k in StageNames
    ensures response.ok ==> forall k :: k in r.value ==>
      r.value[k] == SortByNumber(Routed(response.body, k))
  {
    if !response.ok {
      return Failure(HttpError(response.status));
    }
    var buckets := TransformQuestions(response.body);
    return Success(buckets);
  }

  /** Fetches one stage's questions: a non-OK response is an error carrying its status; otherwise the body as is. */
  function GetQuestionsByStage(response: Response): Result<seq<RawItem>>
  {
    if !response.ok then Failure(HttpError(response.status)) else Success(response.body)
  }

  /**
   * A failed stage fetch names the response's status: two failures with the
   * same message came from the same status.
   */
  lemma StageFetchErrorNamesStatus(a: Response, b: Response)
    requires GetQuestionsByStage(a).Failure? && GetQuestionsByStage(b).Failure?
    requires GetQuestionsByStage(a).error == GetQuestionsByStage(b).error
    ensures !a.ok && !b.ok && a.status == b.status
  {
    HttpErrorInjective(a.status, b.status);
  }

  /** A stage fetch hands back the body of an OK response untouched, and fails otherwise. */
  lemma StageFetchKeepsBody(response: Response)
    ensures GetQuestionsByStage(response).Success? <==> response.ok
    ensures response.ok ==> GetQuestionsByStage(response).value == response.body
  {
  }
}
