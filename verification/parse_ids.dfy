/** `ParseIds`: a comma-separated list of decimal integers, with white space around each
    item ignored. */
module IdList {
  import opened Wrappers
  import opened Text
  import opened Decimal

  /** One item: trimmed, then read by `strconv.Atoi`. */
  function ParseItem(p: string): Result<int, NumError>
  {
    Atoi(TrimSpace(p))
  }

  /** Reads the items in order with `parse` and stops at the first one it rejects. */
  function ParseItems<T, E>(parts: seq<string>, parse: string -> Result<T, E>): (r: Result<seq<T>, E>)
    ensures r.Ok? <==> forall i :: 0 <= i < |parts| ==> parse(parts[i]).Ok?
    ensures r.Ok? ==> |r.value| == |parts|
    ensures r.Ok? ==> forall i :: 0 <= i < |parts| ==> r.value[i] == parse(parts[i]).value
    ensures r.Err? ==> exists i :: 0 <= i < |parts| && parse(parts[i]) == Err(r.error)
                                   && forall j :: 0 <= j < i ==> parse(parts[j]).Ok?
    decreases |parts|
  {
    if |parts| == 0 then Ok([])
    else
      match parse(parts[0])
      case Err(e) => Err(e)
      case Ok(id) =>
        match ParseItems(parts[1..], parse)
        case Err(e) =>
          FirstFailureShifts(parts, parse, e);
          Err(e)
        case Ok(ids) => Ok([id] + ids)
  }

  /** A first failure in the tail, after a good head, is a first failure of the whole. */
  lemma FirstFailureShifts<T, E>(parts: seq<string>, parse: string -> Result<T, E>, e: E)
    requires |parts| > 0 && parse(parts[0]).Ok?
    requires exists i :: 0 <= i < |parts| - 1 && parse(parts[1..][i]) == Err(e)
                         && forall j :: 0 <= j < i ==> parse(parts[1..][j]).Ok?
    ensures exists i :: 0 <= i < |parts| && parse(parts[i]) == Err(e)
                        && forall j :: 0 <= j < i ==> parse(parts[j]).Ok?
  {
    var i :| 0 <= i < |parts| - 1 && parse(parts[1..][i]) == Err(e)
             && forall j :: 0 <= j < i ==> parse(parts[1..][j]).Ok?;
    assert parse(parts[i + 1]) == Err(e);
    forall j | 0 <= j < i + 1
      ensures parse(parts[j]).Ok?
    {
      if j > 0 {
        assert parts[j] == parts[1..][j - 1];
      }
    }
  }

  /** `ParseIds`: blank input is the empty list; otherwise every comma-separated item must
      be an integer, and the first one that is not decides the error. */
  function ParseIds(raw: string): (r: Result<seq<int>, NumError>)
    ensures AllSpace(raw) ==> r == Ok([])
    ensures !AllSpace(raw) && r.Ok? ==>
              forall i :: 0 <= i < |Split(raw, ',')| ==> ParseItem(Split(raw, ',')[i]).Ok?
    ensures !AllSpace(raw) && (forall i :: 0 <= i < |Split(raw, ',')| ==> ParseItem(Split(raw, ',')[i]).Ok?)
            ==> r.Ok?
    ensures !AllSpace(raw) && r.Ok? ==>
              && |r.value| == |Split(raw, ',')|
              && forall i :: 0 <= i < |r.value| ==> r.value[i] == ParseItem(Split(raw, ',')[i]).value
    ensures !AllSpace(raw) && r.Err? ==>
              exists i :: && 0 <= i < |Split(raw, ',')|
                          && ParseItem(Split(raw, ',')[i]) == Err(r.error)
                          && forall j :: 0 <= j < i ==> ParseItem(Split(raw, ',')[j]).Ok?
  {
    TrimSpaceEmpty(raw);
    if TrimSpace(raw) == "" then Ok([])
    else
      var parts := Split(raw, ',');
      ParseEachItem(parts);
      ParseItems(parts, ParseItem)
  }

  /** `ParseItems` with `ParseItem`, stated item by item. */
  lemma ParseEachItem(parts: seq<string>)
    ensures var r := ParseItems(parts, ParseItem);
            && (r.Ok? <==> forall i :: 0 <= i < |parts| ==> ParseItem(parts[i]).Ok?)
            && (r.Ok? ==> |r.value| == |parts| && forall i :: 0 <= i < |parts| ==> r.value[i] == ParseItem(parts[i]).value)
  {
  }

  /** An empty or blank item, such as the middle of "1,,2" or the end of "1,", is an error. */
  lemma BlankItemFails(raw: string, i: int)
    requires !AllSpace(raw)
    requires 0 <= i < |Split(raw, ',')| && AllSpace(Split(raw, ',')[i])
    ensures ParseIds(raw).Err?
  {
    TrimSpaceEmpty(Split(raw, ',')[i]);
    assert ParseItem(Split(raw, ',')[i]).Err?;
  }

  /** White space around an item does not change it. */
  lemma PaddedItem(left: string, item: string, right: string)
    requires AllSpace(left) && AllSpace(right)
    ensures ParseItem(left + item + right) == ParseItem(item)
  {
    TrimSpacePadded(left, item, right);
  }

  /** Decimal spellings of a list of integers. */
  function Itoas(ids: seq<int>): (parts: seq<string>)
    ensures |parts| == |ids|
  {
    seq(|ids|, i requires 0 <= i < |ids| => Itoa(ids[i]))
  }

  /** A decimal spelling is one item: it holds no comma, does not start with white space,
      and parses back to its value. */
  lemma ItoaItem(n: int)
    requires InInt64(n)
    ensures ',' !in Itoa(n) && !IsSpace(Itoa(n)[0])
    ensures ParseItem(Itoa(n)) == Ok(n)
  {
    ItoaShape(n);
    TrimSpaceOfTrimmed(Itoa(n));
    AtoiItoa(n);
  }

  /** A decimal spelling has no comma and no white space at either end. */
  lemma ItoaShape(n: int)
    ensures ',' !in Itoa(n) && Trimmed(Itoa(n))
  {
    var s := Itoa(n);
    var last := s[|s| - 1];
    assert IsDigit(last) || last == '-';
  }

  /** Input that is not blank and whose items read as `ids`, one by one, parses to `ids`. */
  lemma ParseIdsOfItems(raw: string, ids: seq<int>)
    requires !AllSpace(raw) && |Split(raw, ',')| == |ids|
    requires forall i :: 0 <= i < |ids| ==> ParseItem(Split(raw, ',')[i]) == Ok(ids[i])
    ensures ParseIds(raw) == Ok(ids)
  {
    var parts := Split(raw, ',');
    ParseIdsOfNonBlank(raw);
    ParseEachItem(parts);
    var r := ParseItems(parts, ParseItem);
    assert r.Ok?;
    assert r.value == ids;
  }

  /** Input that is not blank is read item by item. */
  lemma ParseIdsOfNonBlank(raw: string)
    requires !AllSpace(raw)
    ensures ParseIds(raw) == ParseItems(Split(raw, ','), ParseItem)
  {
    TrimSpaceEmpty(raw);
  }

  /** The spellings of 64-bit integers are items that read back as those integers. */
  lemma ItoasItems(ids: seq<int>)
    requires forall i :: 0 <= i < |ids| ==> InInt64(ids[i])
    ensures forall i :: 0 <= i < |ids| ==> ',' !in Itoas(ids)[i] && ParseItem(Itoas(ids)[i]) == Ok(ids[i])
  {
    forall i | 0 <= i < |ids|
      ensures ',' !in Itoas(ids)[i] && ParseItem(Itoas(ids)[i]) == Ok(ids[i])
    {
      ItoaItem(ids[i]);
    }
  }

  /** Writing 64-bit integers in decimal, joined by commas, and parsing the result gives
      back the list. */
  lemma ParseJoinedIds(ids: seq<int>)
    requires forall i :: 0 <= i < |ids| ==> InInt64(ids[i])
    ensures ParseIds(Join(Itoas(ids), ',')) == Ok(ids)
  {
    var parts := Itoas(ids);
    var raw := Join(parts, ',');
    if |ids| == 0 {
      assert raw == "";
    } else {
      ItoasItems(ids);
      ItoaItem(ids[0]);
      JoinFirst(parts, ',');
      assert !AllSpace(raw);
      SplitJoin(parts, ',');
      ParseIdsOfItems(raw, ids);
    }
  }
}
