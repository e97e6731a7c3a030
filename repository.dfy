/** The queries and updates the service asks of the diary table, over the table's rows in
    store order. */
module Repository {
  import opened Domain

  /** `findAllByDate`: the entries filed under `date`, in store order. */
  function FindAllByDate(s: seq<Diary>, date: Date): (r: seq<Diary>)
    ensures |r| <= |s|
    ensures forall e :: e in r <==> e in s && e.EntryDate() == date
  {
    if s == [] then []
    else
      assert s == [s[0]] + s[1..];
      if s[0].EntryDate() == date then [s[0]] + FindAllByDate(s[1..], date)
      else FindAllByDate(s[1..], date)
  }

  /** `findAllByDateBetween`: the entries whose date lies in `[start, end]`, in store order. */
  function FindAllByDateBetween(s: seq<Diary>, start: Date, end: Date): (r: seq<Diary>)
    ensures |r| <= |s|
    ensures forall e :: e in r <==> e in s && start <= e.EntryDate() <= end
  {
    if s == [] then []
    else
      assert s == [s[0]] + s[1..];
      if start <= s[0].EntryDate() <= end then [s[0]] + FindAllByDateBetween(s[1..], start, end)
      else FindAllByDateBetween(s[1..], start, end)
  }

  /** `deleteAllByDate`: the table once every entry filed under `date` is gone. */
  function DeleteAllByDate(s: seq<Diary>, date: Date): (r: seq<Diary>)
    ensures |r| <= |s|
    ensures forall e :: e in r <==> e in s && e.EntryDate() != date
    ensures FindAllByDate(r, date) == []
  {
    if s == [] then []
    else
      assert s == [s[0]] + s[1..];
      if s[0].EntryDate() == date then DeleteAllByDate(s[1..], date)
      else [s[0]] + DeleteAllByDate(s[1..], date)
  }

  /** `getFirstByDate`: the position of the first entry filed under `date`, if any. */
  function FirstIndexByDate(s: seq<Diary>, date: Date): (r: Option<nat>)
    ensures r.None? <==> forall k :: 0 <= k < |s| ==> s[k].EntryDate() != date
    ensures r.Some? ==> r.value < |s| && s[r.value].EntryDate() == date
    ensures r.Some? ==> forall k :: 0 <= k < r.value ==> s[k].EntryDate() != date
  {
    if s == [] then None
    else if s[0].EntryDate() == date then Some(0)
    else
      match FirstIndexByDate(s[1..], date)
      case None => None
      case Some(i) => Some(i + 1)
  }

  /** `getFirstByDate`, `setText` and `save`: the table once the first entry filed under
      `date` carries `text`; NotFound, and no change, when there is no such entry. */
  function SetTextOfFirst(s: seq<Diary>, date: Date, text: string): (r: Result<seq<Diary>>)
    ensures r.Err? <==> forall k :: 0 <= k < |s| ==> s[k].EntryDate() != date
    ensures r.Err? ==> r.error == NotFound
    ensures r.Ok? ==> |r.value| == |s|
    ensures r.Ok? ==> forall k :: 0 <= k < |s| ==> r.value[k].dateWeather == s[k].dateWeather
  {
    match FirstIndexByDate(s, date)
    case None => Err(NotFound)
    case Some(i) => Ok(s[i := s[i].(text := text)])
  }

  /** The query for `date` holds each entry of that date as often as the table does, and no other. */
  lemma {:induction false} FindAllByDateCounts(s: seq<Diary>, date: Date, e: Diary)
    ensures multiset(FindAllByDate(s, date))[e] == if e.EntryDate() == date then multiset(s)[e] else 0
  {
    if s != [] {
      FindAllByDateCounts(s[1..], date, e);
      assert s == [s[0]] + s[1..];
    }
  }

  /** The range query holds each entry dated in `[start, end]` as often as the table does, and no other. */
  lemma {:induction false} FindAllByDateBetweenCounts(s: seq<Diary>, start: Date, end: Date, e: Diary)
    ensures multiset(FindAllByDateBetween(s, start, end))[e]
         == if start <= e.EntryDate() <= end then multiset(s)[e] else 0
  {
    if s != [] {
      FindAllByDateBetweenCounts(s[1..], start, end, e);
      assert s == [s[0]] + s[1..];
    }
  }

  /** Appending an entry adds it to the end of its own date's query and to no other. */
  lemma {:induction false} FindAllByDateAppend(s: seq<Diary>, e: Diary, date: Date)
    ensures FindAllByDate(s + [e], date)
         == FindAllByDate(s, date) + (if e.EntryDate() == date then [e] else [])
  {
    var tail := if e.EntryDate() == date then [e] else [];
    if s == [] {
      assert FindAllByDate([e][1..], date) == [];
    } else {
      var t := s + [e];
      assert t[0] == s[0] && t[1..] == s[1..] + [e];
      FindAllByDateAppend(s[1..], e, date);
      if s[0].EntryDate() == date {
        calc {
          FindAllByDate(t, date);
          [s[0]] + FindAllByDate(s[1..] + [e], date);
          [s[0]] + (FindAllByDate(s[1..], date) + tail);
          ([s[0]] + FindAllByDate(s[1..], date)) + tail;
        }
      }
    }
  }

  /** Deleting a date keeps the entries of every other date, each date's entries in their order. */
  lemma {:induction false} DeleteKeepsOtherDates(s: seq<Diary>, date: Date, other: Date)
    requires other != date
    ensures FindAllByDate(DeleteAllByDate(s, date), other) == FindAllByDate(s, other)
  {
    if s != [] {
      DeleteKeepsOtherDates(s[1..], date, other);
    }
  }

  /** Deleting a date and then asking for a range gives the range query with that date
      deleted. */
  lemma {:induction false} DeleteCommutesWithRange(s: seq<Diary>, date: Date, lo: Date, hi: Date)
    ensures FindAllByDateBetween(DeleteAllByDate(s, date), lo, hi)
         == DeleteAllByDate(FindAllByDateBetween(s, lo, hi), date)
  {
    if s != [] {
      DeleteCommutesWithRange(s[1..], date, lo, hi);
      assert ([s[0]] + FindAllByDateBetween(s[1..], lo, hi))[1..] == FindAllByDateBetween(s[1..], lo, hi);
      assert ([s[0]] + DeleteAllByDate(s[1..], date))[1..] == DeleteAllByDate(s[1..], date);
    }
  }

  /** Deleting a date distributes over concatenation: together with its effect on a single
      entry (dropped when filed under the date, kept otherwise) this fixes the result, so all
      survivors, whatever their dates, keep their relative order. */
  lemma {:induction false} DeleteConcat(s: seq<Diary>, t: seq<Diary>, date: Date)
    ensures DeleteAllByDate(s + t, date) == DeleteAllByDate(s, date) + DeleteAllByDate(t, date)
  {
    if s == [] {
      assert s + t == t;
    } else {
      assert (s + t)[1..] == s[1..] + t;
      DeleteConcat(s[1..], t, date);
    }
  }

  /** Deleting a date leaves the table unchanged when no entry is filed under it. */
  lemma {:induction false} DeleteAbsentDate(s: seq<Diary>, date: Date)
    requires forall k :: 0 <= k < |s| ==> s[k].EntryDate() != date
    ensures DeleteAllByDate(s, date) == s
  {
    if s != [] {
      DeleteAbsentDate(s[1..], date);
      assert s == [s[0]] + s[1..];
    }
  }

  /** Deleting a date removes exactly what the query for that date returns: the two split the table. */
  lemma {:induction false} DeletePartitions(s: seq<Diary>, date: Date)
    ensures multiset(FindAllByDate(s, date)) + multiset(DeleteAllByDate(s, date)) == multiset(s)
  {
    if s != [] {
      var rest := s[1..];
      DeletePartitions(rest, date);
      assert s == [s[0]] + rest;
      assert multiset(s) == multiset{s[0]} + multiset(rest);
      if s[0].EntryDate() == date {
        assert FindAllByDate(s, date) == [s[0]] + FindAllByDate(rest, date);
        assert DeleteAllByDate(s, date) == DeleteAllByDate(rest, date);
      } else {
        assert FindAllByDate(s, date) == FindAllByDate(rest, date);
        assert DeleteAllByDate(s, date) == [s[0]] + DeleteAllByDate(rest, date);
      }
    }
  }

  /** A one-day range returns exactly the query for that day, in the same order. */
  lemma {:induction false} BetweenSingleDay(s: seq<Diary>, date: Date)
    ensures FindAllByDateBetween(s, date, date) == FindAllByDate(s, date)
  {
    if s != [] {
      BetweenSingleDay(s[1..], date);
    }
  }

  /** Replacing an entry that is not filed under `date` by another such entry leaves the
      query for `date` unchanged. */
  lemma {:induction false} FindAllByDateReplaceOther(s: seq<Diary>, i: nat, e: Diary, date: Date)
    requires i < |s|
    requires s[i].EntryDate() != date && e.EntryDate() != date
    ensures FindAllByDate(s[i := e], date) == FindAllByDate(s, date)
  {
    if i > 0 {
      assert s[i := e][1..] == s[1..][i - 1 := e];
      FindAllByDateReplaceOther(s[1..], i - 1, e, date);
    } else {
      assert s[i := e][1..] == s[1..];
    }
  }

  /** After an update that succeeds, the query for that date shows the new text, and the
      query for every other date is exactly as before. */
  lemma SetTextOfFirstThenRead(s: seq<Diary>, date: Date, text: string, other: Date)
    requires SetTextOfFirst(s, date, text).Ok?
    requires other != date
    ensures exists e :: e in FindAllByDate(SetTextOfFirst(s, date, text).value, date) && e.text == text
    ensures FindAllByDate(SetTextOfFirst(s, date, text).value, other) == FindAllByDate(s, other)
  {
    var i := FirstIndexByDate(s, date).value;
    var t := s[i := s[i].(text := text)];
    assert t[i] in t;
    FindAllByDateReplaceOther(s, i, s[i].(text := text), other);
  }

  /** An update that succeeds changes only the text of the first entry filed under `date`. */
  lemma SetTextOfFirstChangesOnlyFirst(s: seq<Diary>, date: Date, text: string, k: nat)
    requires SetTextOfFirst(s, date, text).Ok?
    requires k < |s|
    ensures var r := SetTextOfFirst(s, date, text).value;
            var i := FirstIndexByDate(s, date).value;
            && r[i].text == text
            && (k != i ==> r[k] == s[k])
            && (k < i ==> s[k].EntryDate() != date)
  {
  }
}
