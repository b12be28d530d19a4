/** The non-full chunk lists, one per small bin, front first (include/metall/kernel/bin_directory.hpp). */
module BinDirectory {
  import opened Text

  /** The list without the first occurrence of v. */
  function Erased(list: seq<nat>, v: nat): (r: seq<nat>)
    ensures v !in list ==> r == list
    ensures v in list ==> |r| == |list| - 1
  {
    if list == [] then []
    else if list[0] == v then list[1..]
    else
      assert list == [list[0]] + list[1..];
      [list[0]] + Erased(list[1..], v)
  }

  ghost predicate NoDuplicates(list: seq<nat>) {
    forall i, j :: 0 <= i < j < |list| ==> list[i] != list[j]
  }

  /** In a list without duplicates, erasing removes exactly that value and keeps the order of the rest. */
  lemma {:induction false} ErasedCorrect(list: seq<nat>, v: nat)
    requires NoDuplicates(list)
    ensures NoDuplicates(Erased(list, v))
    ensures forall c :: c in Erased(list, v) <==> c in list && c != v
  {
    if list != [] {
      var tail := list[1..];
      assert list == [list[0]] + tail;
      assert list[0] !in tail;
      ErasedCorrect(tail, v);
    }
  }

  lemma {:induction false} ErasedAt(list: seq<nat>, v: nat, i: nat)
    requires i < |list| && list[i] == v && forall k :: 0 <= k < i ==> list[k] != v
    ensures Erased(list, v) == list[..i] + list[i + 1..]
    decreases i
  {
    if i > 0 {
      ErasedAt(list[1..], v, i - 1);
      assert list[1..][..i - 1] == list[1..i] && list[1..][i..] == list[i + 1..];
    }
  }

  // ---------- Saving and restoring ---------- //

  function Row(bin: nat, value: nat): (s: string) { Decimal(bin) + " " + Decimal(value) + "\n" }

  function SaveBin(bin: nat, list: seq<nat>): string {
    if list == [] then "" else SaveBin(bin, list[..|list| - 1]) + Row(bin, list[|list| - 1])
  }

  /** The file: one row per listed chunk, bin by bin, front first. */
  function SaveBins(lists: seq<seq<nat>>): string {
    if lists == [] then "" else SaveBins(lists[..|lists| - 1]) + SaveBin(|lists| - 1, lists[|lists| - 1])
  }

  /** Rows are read as long as there are any; each appends to its bin. */
  function LoadBins(lists: seq<seq<nat>>, s: string): (r: (bool, seq<seq<nat>>))
    ensures |r.1| == |lists|
    decreases |s|
  {
    var bin := ReadNumber(s);
    if bin.Failed? then (AtEnd(s), lists) else
    var value := ReadNumber(bin.rest);
    if value.Failed? then (AtEnd(bin.rest), lists)
    else if |lists| <= bin.n then (false, lists)
    else LoadBins(lists[bin.n := lists[bin.n] + [value.n]], value.rest)
  }

  lemma LoadRow(lists: seq<seq<nat>>, bin: nat, value: nat, rest: string)
    requires bin < |lists| && bin <= UINT64_MAX && value <= UINT64_MAX
    ensures LoadBins(lists, Row(bin, value) + rest) == LoadBins(lists[bin := lists[bin] + [value]], rest)
  {
    hide Decimal, ReadNumber;
    var tail := "\n" + rest;
    var second := Decimal(value) + tail;
    assert Row(bin, value) + rest == Decimal(bin) + (" " + second);
    ReadDecimal(bin, " " + second);
    ReadAfterSpace(' ', second);
    ReadDecimal(value, tail);
    SpaceBefore(lists[bin := lists[bin] + [value]], '\n', rest);
  }

  lemma SpaceBefore(lists: seq<seq<nat>>, c: char, s: string)
    requires IsSpace(c)
    ensures LoadBins(lists, [c] + s) == LoadBins(lists, s)
  {
    ReadAfterSpace(c, s);
  }

  lemma {:induction false} LoadBin(lists: seq<seq<nat>>, bin: nat, list: seq<nat>, rest: string)
    requires bin < |lists| && bin <= UINT64_MAX && forall i :: 0 <= i < |list| ==> list[i] <= UINT64_MAX
    ensures LoadBins(lists, SaveBin(bin, list) + rest) == LoadBins(lists[bin := lists[bin] + list], rest)
    decreases |list|
  {
    hide Row, LoadBins;
    if list == [] {
      assert SaveBin(bin, list) + rest == rest;
      assert lists[bin] + list == lists[bin];
      assert lists[bin := lists[bin] + list] == lists;
    } else {
      var n := |list| - 1;
      assert SaveBin(bin, list) + rest == SaveBin(bin, list[..n]) + (Row(bin, list[n]) + rest);
      LoadBin(lists, bin, list[..n], Row(bin, list[n]) + rest);
      var mid := lists[bin := lists[bin] + list[..n]];
      LoadRow(mid, bin, list[n], rest);
      assert (lists[bin] + list[..n]) + [list[n]] == lists[bin] + list;
      assert mid[bin := mid[bin] + [list[n]]] == lists[bin := lists[bin] + list];
    }
  }

  /** Some lists, then empty ones. */
  function Padded(lists: seq<seq<nat>>, n: nat): (r: seq<seq<nat>>)
    requires |lists| <= n
    ensures |r| == n && forall i :: 0 <= i < n ==> r[i] == if i < |lists| then lists[i] else []
  {
    lists + seq(n - |lists|, _ => [])
  }

  ghost predicate Writable(lists: seq<seq<nat>>) {
    |lists| <= UINT64_MAX && forall b, i :: 0 <= b < |lists| && 0 <= i < |lists[b]| ==> lists[b][i] <= UINT64_MAX
  }

  lemma {:induction false} LoadSaved(lists: seq<seq<nat>>, n: nat, rest: string)
    requires |lists| <= n && Writable(lists)
    ensures LoadBins(Padded([], n), SaveBins(lists) + rest) == LoadBins(Padded(lists, n), rest)
    decreases |lists|
  {
    hide LoadBins, SaveBin;
    if lists == [] {
      assert SaveBins(lists) + rest == rest;
    } else {
      var k := |lists| - 1;
      var tail := SaveBin(k, lists[k]) + rest;
      assert SaveBins(lists) + rest == SaveBins(lists[..k]) + tail;
      LoadSaved(lists[..k], n, tail);
      var mid := Padded(lists[..k], n);
      LoadBin(mid, k, lists[k], rest);
      assert mid[k] + lists[k] == lists[k];
      assert mid[k := mid[k] + lists[k]] == Padded(lists, n);
    }
  }

  /** Restoring what was saved gives the same lists in the same order. */
  lemma BinsRoundTrip(lists: seq<seq<nat>>)
    requires Writable(lists)
    ensures LoadBins(Padded([], |lists|), SaveBins(lists)) == (true, lists)
  {
    hide SaveBins;
    LoadSaved(lists, |lists|, "");
    assert SaveBins(lists) + "" == SaveBins(lists);
    assert Padded(lists, |lists|) == lists;
    ReadNothing("");
  }

  // ---------- The text itself ---------- //

  /** The rows of bin b as numbers, front first. */
  function BinRows(b: nat, list: seq<nat>): (rows: seq<seq<nat>>)
    ensures |rows| == |list| && forall k :: 0 <= k < |list| ==> rows[k] == [b, list[k]]
  {
    seq(|list|, k requires 0 <= k < |list| => [b, list[k]])
  }

  /** The rows of the file as numbers: bin and chunk, bin by bin. */
  function Rows(lists: seq<seq<nat>>): (rows: seq<seq<nat>>) {
    if lists == [] then [] else Rows(lists[..|lists| - 1]) + BinRows(|lists| - 1, lists[|lists| - 1])
  }

  lemma RowIsNumbers(bin: nat, value: nat)
    ensures Row(bin, value) == Numbers([bin, value]) + "\n"
  {
    hide Decimal;
    assert [bin, value][..1] == [bin];
  }

  lemma {:induction false} BinLines(bin: nat, list: seq<nat>, rest: string)
    ensures Lines(SaveBin(bin, list) + rest) == RowLines(BinRows(bin, list)) + Lines(rest)
    decreases |list|
  {
    hide Row, Lines, Numbers;
    if list == [] {
      assert SaveBin(bin, list) + rest == rest;
    } else {
      var n := |list| - 1;
      RowIsNumbers(bin, list[n]);
      var line := Numbers([bin, list[n]]);
      assert SaveBin(bin, list) + rest == SaveBin(bin, list[..n]) + (line + "\n" + rest);
      BinLines(bin, list[..n], line + "\n" + rest);
      FirstLine(line, rest);
    }
  }

  lemma {:induction false} LinesFrom(lists: seq<seq<nat>>, rest: string)
    ensures Lines(SaveBins(lists) + rest) == RowLines(Rows(lists)) + Lines(rest)
    decreases |lists|
  {
    hide SaveBin, Lines, Numbers;
    if lists == [] {
      assert SaveBins(lists) + rest == rest;
    } else {
      var b := |lists| - 1;
      assert SaveBins(lists) + rest == SaveBins(lists[..b]) + (SaveBin(b, lists[b]) + rest);
      LinesFrom(lists[..b], SaveBin(b, lists[b]) + rest);
      BinLines(b, lists[b], rest);
      assert RowLines(Rows(lists)) == RowLines(Rows(lists[..b])) + RowLines(BinRows(b, lists[b]));
    }
  }

  lemma {:induction false} RowsFit(lists: seq<seq<nat>>, i: nat)
    requires Writable(lists) && i < |Rows(lists)|
    ensures |Rows(lists)[i]| == 2 && Rows(lists)[i][0] <= UINT64_MAX && Rows(lists)[i][1] <= UINT64_MAX
    decreases |lists|
  {
    var b := |lists| - 1;
    if i < |Rows(lists[..b])| { RowsFit(lists[..b], i); }
  }

  /** The file has one line for each chunk in each list, with the numbers of the bin and the chunk, in this order. */
  lemma SavedLines(lists: seq<seq<nat>>)
    requires Writable(lists)
    ensures var ls := Lines(SaveBins(lists));
            && |ls| == |Rows(lists)|
            && forall i :: 0 <= i < |ls| ==> ls[i] == Numbers(Rows(lists)[i]) && ReadNumbers(ls[i]) == Rows(lists)[i]
  {
    hide SaveBins, Numbers, ReadNumbers, Rows;
    LinesFrom(lists, "");
    assert SaveBins(lists) + "" == SaveBins(lists) && Lines("") == [];
    var ls := Lines(SaveBins(lists));
    assert ls == RowLines(Rows(lists));
    forall i | 0 <= i < |ls| ensures ReadNumbers(ls[i]) == Rows(lists)[i] {
      RowsFit(lists, i);
      ReadNumbersOf(Rows(lists)[i]);
    }
  }

  /** For example. */
  lemma SavedExample()
    ensures SaveBins([[3, 10], [], [7]]) == "0 3\n0 10\n2 7\n"
  {
    assert Decimal(10) == "10";
    var a: seq<nat>, b: seq<nat>, c: seq<nat> := [3, 10], [], [7];
    assert SaveBin(0, a) == "0 3\n0 10\n" by { assert a[..1] == [3] && [3][..0] == []; }
    assert SaveBin(2, c) == "2 7\n" by { assert c[..0] == []; }
    assert [a][..0] == [] && [a, b][..1] == [a] && [a, b, c][..2] == [a, b];
    assert SaveBins([a]) == SaveBin(0, a);
    assert SaveBins([a, b]) == SaveBin(0, a) + "";
  }

  lemma LoadBlank(lists: seq<seq<nat>>, l: string, rest: string)
    requires OneLine(l) && Blank(l)
    ensures LoadBins(lists, l + "\n" + rest) == LoadBins(lists, rest)
  {
    hide ReadNumber, AtEnd;
    ReadInLine(l, rest);
  }

  /** A line with a bin and a chunk appends the chunk to the list of the bin, if there is such a bin. */
  lemma LoadLine(lists: seq<seq<nat>>, l: string, b: nat, v: nat, rest: string)
    requires OneLine(l) && HoldsNumbers(l, [b, v])
    ensures LoadBins(lists, l + "\n" + rest) ==
            if b < |lists| then LoadBins(lists[b := lists[b] + [v]], rest) else (false, lists)
  {
    hide ReadNumber, Blank, OneLine, LoadBins, HoldsNumbers;
    FirstNumber(l, [b, v]);
    var r := ReadNumber(l);
    assert [b, v][1..] == [v] && [v][1..] == [];
    ReadInLine(l, rest);
    FirstNumber(r.rest, [v]);
    ReadInLine(r.rest, rest);
    NoNumber(ReadNumber(r.rest).rest);
    LoadPair(lists, l + "\n" + rest);
    if b < |lists| { LoadBlank(lists[b := lists[b] + [v]], ReadNumber(r.rest).rest, rest); }
  }

  lemma LoadPair(lists: seq<seq<nat>>, s: string)
    requires ReadNumber(s).Got? && ReadNumber(ReadNumber(s).rest).Got?
    ensures var b, v := ReadNumber(s).n, ReadNumber(ReadNumber(s).rest);
            LoadBins(lists, s) == if b < |lists| then LoadBins(lists[b := lists[b] + [v.n]], v.rest) else (false, lists)
  {
    hide ReadNumber;
  }

  class BinDirectory {
    const numBins: nat
    var table: seq<seq<nat>>

    ghost predicate Valid()
      reads this
    {
      |table| == numBins
    }

    constructor (numBins: nat)
      ensures Valid() && this.numBins == numBins
      ensures forall b :: 0 <= b < numBins ==> table[b] == []
    {
      this.numBins := numBins;
      table := seq(numBins, _ => []);
    }

    predicate Empty(bin: nat)
      requires Valid() && bin < numBins
      reads this
    {
      table[bin] == []
    }

    function Size(bin: nat): nat
      requires Valid() && bin < numBins
      reads this
    {
      |table[bin]|
    }

    function Front(bin: nat): nat
      requires Valid() && bin < numBins && !Empty(bin)
      reads this
    {
      table[bin][0]
    }

    method Insert(bin: nat, value: nat)
      requires Valid() && bin < numBins
      modifies this
      ensures Valid() && table == old(table)[bin := [value] + old(table)[bin]]
    {
      table := table[bin := [value] + table[bin]];
    }

    method Pop(bin: nat)
      requires Valid() && bin < numBins && !Empty(bin)
      modifies this
      ensures Valid() && table == old(table)[bin := old(table)[bin][1..]]
    {
      table := table[bin := table[bin][1..]];
    }

    method Erase(bin: nat, value: nat) returns (found: bool)
      requires Valid() && bin < numBins
      modifies this
      ensures Valid() && found == (value in old(table)[bin])
      ensures table == old(table)[bin := Erased(old(table)[bin], value)]
    {
      var list := table[bin];
      var i := 0;
      while i < |list|
        invariant 0 <= i <= |list|
        invariant value !in list[..i]
        invariant table == old(table)
      {
        if list[i] == value {
          ErasedAt(list, value, i);
          table := table[bin := list[..i] + list[i + 1..]];
          return true;
        }
        i := i + 1;
      }
      assert list[..i] == list;
      return false;
    }

    method Clear()
      requires Valid()
      modifies this
      ensures Valid() && forall b :: 0 <= b < numBins ==> table[b] == []
    {
      var i := 0;
      while i < |table|
        invariant 0 <= i <= |table| == numBins
        invariant forall b :: 0 <= b < i ==> table[b] == []
      {
        table := table[i := []];
        i := i + 1;
      }
    }

    /** `serialize`, the text that is written. */
    method Serialize() returns (text: string)
      requires Valid()
      ensures text == SaveBins(table)
    {
      hide Row;
      text := "";
      var i := 0;
      while i < |table|
        invariant 0 <= i <= |table| && text == SaveBins(table[..i])
      {
        ghost var before := text;
        var list := table[i];
        var k := 0;
        while k < |list|
          invariant 0 <= k <= |list| && text == before + SaveBin(i, list[..k])
        {
          text := text + Row(i, list[k]);
          assert list[..k + 1][..k] == list[..k];
          k := k + 1;
        }
        assert list[..k] == list && table[..i + 1][..i] == table[..i];
        i := i + 1;
      }
      assert table[..i] == table;
    }

    /** `deserialize`. */
    method Deserialize(text: string) returns (ok: bool)
      requires Valid()
      modifies this
      ensures Valid() && (ok, table) == LoadBins(old(table), text)
    {
      var rest := text;
      var bin := ReadNumber(rest);
      while bin.Got?
        invariant Valid() && bin == ReadNumber(rest)
        invariant LoadBins(table, rest) == LoadBins(old(table), text)
        decreases |rest|
      {
        var value := ReadNumber(bin.rest);
        if value.Failed? { return AtEnd(bin.rest); }
        if |table| <= bin.n { return false; }
        table := table[bin.n := table[bin.n] + [value.n]];
        rest := value.rest;
        bin := ReadNumber(rest);
      }
      ok := AtEnd(rest);
    }
  }
}
