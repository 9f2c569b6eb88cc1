/**
 Message ids: the printed form namespace/partition/offset (the namespace and its slash are absent when
 it is empty) can be read back, so distinct positions get distinct ids and the index of a batch by id
 loses no message. Partition and offset are printed for every integer, sign included.
 */
module MessageIds {
  import opened Wrappers

  datatype Position = Position(partition: int, offset: int)

  datatype Message = Message(id: string, key: seq<int>, value: seq<int>, headers: map<string, string>)

  // ----- Decimal numbers -----

  function Digit(d: nat): (c: char)
    requires d < 10
    ensures '0' <= c <= '9' && (c as int) - ('0' as int) == d
  {
    ('0' as int + d) as char
  }

  function Digits(n: nat): (s: string)
    ensures s != [] && forall i :: 0 <= i < |s| ==> '0' <= s[i] <= '9'
  {
    if n < 10 then [Digit(n)] else Digits(n / 10) + [Digit(n % 10)]
  }

  function Decimal(n: int): string {
    if n < 0 then "-" + Digits(-n) else Digits(n)
  }

  /** Reads decimal digits; any other character makes the result meaningless. */
  function ReadDigits(s: string): int {
    if s == [] then 0
    else ReadDigits(s[..|s| - 1]) * 10 + (s[|s| - 1] as int - '0' as int)
  }

  function ReadDecimal(s: string): int {
    if s != [] && s[0] == '-' then -ReadDigits(s[1..]) else ReadDigits(s)
  }

  lemma {:induction false} ReadDigitsInverts(n: nat)
    ensures ReadDigits(Digits(n)) == n
  {
    if n < 10 {
      assert Digits(n)[..0] == [];
    } else {
      ReadDigitsInverts(n / 10);
      assert Digits(n)[..|Digits(n)| - 1] == Digits(n / 10);
    }
  }

  lemma ReadDecimalInverts(n: int)
    ensures ReadDecimal(Decimal(n)) == n
    ensures '/' !in Decimal(n)
  {
    if n < 0 {
      ReadDigitsInverts(-n);
      assert Decimal(n)[1..] == Digits(-n);
    } else {
      ReadDigitsInverts(n);
    }
  }

  // ----- Ids -----

  function MessageId(namespace: string, p: Position): string {
    var id := Decimal(p.partition) + "/" + Decimal(p.offset);
    if namespace != "" then namespace + "/" + id else id
  }

  /** What precedes and what follows the last slash of s, or nothing. */
  function SplitLast(s: string): Option<(string, string)> {
    if s == [] then None
    else if s[|s| - 1] == '/' then Some((s[..|s| - 1], ""))
    else
      match SplitLast(s[..|s| - 1])
      case None => None
      case Some((before, after)) => Some((before, after + [s[|s| - 1]]))
  }

  /** Reads an id back from its end: offset, then partition, then whatever is left is the namespace. */
  function ParseId(s: string): Option<(string, Position)> {
    match SplitLast(s)
    case None => None
    case Some((rest, offset)) =>
      match SplitLast(rest)
      case None => Some(("", Position(ReadDecimal(rest), ReadDecimal(offset))))
      case Some((namespace, partition)) => Some((namespace, Position(ReadDecimal(partition), ReadDecimal(offset))))
  }

  lemma {:induction false} SplitLastOf(a: string, b: string)
    requires '/' !in b
    ensures SplitLast(a + "/" + b) == Some((a, b))
  {
    var s := a + "/" + b;
    if b == [] {
      assert s[..|s| - 1] == a;
    } else {
      assert s[..|s| - 1] == a + "/" + b[..|b| - 1];
      assert b == b[..|b| - 1] + [s[|s| - 1]];
      SplitLastOf(a, b[..|b| - 1]);
    }
  }

  lemma {:induction false} NoSlash(s: string)
    requires '/' !in s
    ensures SplitLast(s) == None
  {
    if s != [] {
      NoSlash(s[..|s| - 1]);
    }
  }

  /** Every id can be read back, for namespaces that are empty or contain slashes themselves. */
  lemma ParseInvertsPrint(namespace: string, p: Position)
    ensures ParseId(MessageId(namespace, p)) == Some((namespace, p))
  {
    var partition, offset := Decimal(p.partition), Decimal(p.offset);
    ReadDecimalInverts(p.partition);
    ReadDecimalInverts(p.offset);
    var rest := if namespace == "" then partition else namespace + "/" + partition;
    assert MessageId(namespace, p) == rest + "/" + offset;
    SplitLastOf(rest, offset);
    if namespace == "" {
      NoSlash(partition);
    } else {
      SplitLastOf(namespace, partition);
    }
  }

  /** Two ids are equal only for the same namespace and the same position. */
  lemma IdsAreInjective(namespace: string, p: Position, namespace': string, p': Position)
    ensures MessageId(namespace, p) == MessageId(namespace', p') <==> namespace == namespace' && p == p'
  {
    ParseInvertsPrint(namespace, p);
    ParseInvertsPrint(namespace', p');
  }

  // ----- The index of a batch by id -----

  ghost predicate DistinctIds(list: seq<Message>) {
    forall i, j :: 0 <= i < j < |list| ==> list[i].id != list[j].id
  }

  /** Message k is the last of the first n with its id. */
  ghost predicate IsLatest(list: seq<Message>, n: nat, k: int) {
    0 <= k < n <= |list| && forall j :: k < j < n ==> list[j].id != list[k].id
  }

  ghost predicate HasId(list: seq<Message>, n: nat, id: string) {
    n <= |list| && exists j :: 0 <= j < n && list[j].id == id
  }

  /** The index of the first n messages. */
  ghost predicate Indexed(list: seq<Message>, n: nat, index: map<string, Message>) {
    && (forall id :: id in index <==> HasId(list, n, id))
    && (forall k :: IsLatest(list, n, k) ==> IsEntry(index, list[k]))
  }

  ghost predicate IsEntry(index: map<string, Message>, m: Message) {
    m.id in index && index[m.id] == m
  }

  lemma IndexNext(list: seq<Message>, n: nat, index: map<string, Message>)
    requires n < |list| && Indexed(list, n, index)
    ensures Indexed(list, n + 1, index[list[n].id := list[n]])
  {
    forall id ensures HasId(list, n + 1, id) <==> HasId(list, n, id) || id == list[n].id {
      assert list[n].id == id ==> HasId(list, n + 1, id);
    }
    forall k | IsLatest(list, n + 1, k) ensures IsEntry(index[list[n].id := list[n]], list[k]) {
      assert k < n ==> IsLatest(list, n, k) && list[k].id != list[n].id;
    }
  }

  /** A later message with the same id replaces an earlier one. */
  method IndexByID(list: seq<Message>) returns (index: map<string, Message>)
    ensures Indexed(list, |list|, index)
    ensures forall id :: id in index <==> exists i :: 0 <= i < |list| && list[i].id == id
    ensures forall i :: 0 <= i < |list| && (forall j :: i < j < |list| ==> list[j].id != list[i].id) ==>
              list[i].id in index && index[list[i].id] == list[i]
  {
    index := map[];
    for i := 0 to |list|
      invariant Indexed(list, i, index)
    {
      IndexNext(list, i, index);
      index := index[list[i].id := list[i]];
    }
    IndexMeans(list, index);
  }

  lemma IndexMeans(list: seq<Message>, index: map<string, Message>)
    requires Indexed(list, |list|, index)
    ensures forall id :: id in index <==> exists i :: 0 <= i < |list| && list[i].id == id
    ensures forall i :: 0 <= i < |list| && (forall j :: i < j < |list| ==> list[j].id != list[i].id) ==>
              list[i].id in index && index[list[i].id] == list[i]
  {
    forall id ensures id in index <==> exists i :: 0 <= i < |list| && list[i].id == id {
      assert id in index <==> HasId(list, |list|, id);
    }
    forall i | 0 <= i < |list| && forall j :: i < j < |list| ==> list[j].id != list[i].id
      ensures list[i].id in index && index[list[i].id] == list[i]
    {
      assert IsLatest(list, |list|, i) && IsEntry(index, list[i]);
    }
  }

  /** The batch of kafka messages at these positions, as the handler sees it. */
  ghost predicate Carries(list: seq<Message>, namespace: string, positions: seq<Position>) {
    && |list| == |positions|
    && forall i :: 0 <= i < |list| ==> list[i].id == MessageId(namespace, positions[i])
  }

  /** Messages fetched from distinct positions have distinct ids, so indexing them by id loses none. */
  lemma DistinctPositionsDistinctIds(list: seq<Message>, namespace: string, positions: seq<Position>)
    requires Carries(list, namespace, positions)
    requires forall i, j :: 0 <= i < j < |positions| ==> positions[i] != positions[j]
    ensures DistinctIds(list)
  {
    forall i, j | 0 <= i < j < |list|
      ensures list[i].id != list[j].id
    {
      IdsAreInjective(namespace, positions[i], namespace, positions[j]);
    }
  }

  // ----- Batch ids -----

  function BatchId(n: nat): string {
    "b" + Digits(n)
  }

  /** Batch ids are never empty and never repeat while the counter grows. */
  lemma BatchIdsAreInjective(n: nat, m: nat)
    ensures BatchId(n) != ""
    ensures BatchId(n) == BatchId(m) <==> n == m
  {
    ReadDigitsInverts(n);
    ReadDigitsInverts(m);
    assert BatchId(n)[1..] == Digits(n) && BatchId(m)[1..] == Digits(m);
  }
}
