/**
 * Key derivation and first-match search of AlphabetFlatList (index.js).
 *
 * An item's key is the first character of the item itself, or of its
 * configured `matchFieldName` field, upper-cased. Pressing a letter scans
 * the data in order for the first item whose key is that letter; an item
 * that lacks the configured field is reported with a warning and counts as
 * a non-match, and the scan goes on.
 */
module Keys {

  datatype Option<T> = None | Some(value: T)

  /** A data item: a plain string, or a record with string-valued fields. */
  datatype Item = Str(text: string) | Obj(fields: map<string, string>)

  /** The `matchFieldName` prop: not given (its default `false`), or a field name. */
  datatype MatchField = NoMatchField | MatchField(name: string)

  /** JavaScript truthiness of `matchFieldName`: an empty name is falsy, like `false`. */
  predicate UsesField(mf: MatchField)
  {
    mf.MatchField? && mf.name != ""
  }

  /** `item[name]` is truthy: the field exists and is a non-empty string. */
  predicate HasField(item: Item, name: string)
  {
    item.Obj? && name in item.fields && item.fields[name] != ""
  }

  /**
   * Reading the key source does not crash: with a field name every item is
   * readable (a missing field is reported, not fatal); without one the item
   * itself must be a non-empty string, since `item[0]` is read.
   */
  predicate KeySourceDefined(item: Item, mf: MatchField)
  {
    UsesField(mf) || (item.Str? && item.text != "")
  }

  predicate AllDefined(data: seq<Item>, mf: MatchField)
  {
    forall i :: 0 <= i < |data| ==> KeySourceDefined(data[i], mf)
  }

  predicate IsLower(c: char)
  {
    'a' <= c <= 'z'
  }

  predicate IsUpper(c: char)
  {
    'A' <= c <= 'Z'
  }

  /** `toUpperCase` restricted to ASCII: `a`..`z` become `A`..`Z`, every other character is kept. */
  function Upper(c: char): (r: char)
    ensures !IsLower(r)
    ensures IsLower(c) ==> IsUpper(r) && r as int - 'A' as int == c as int - 'a' as int
    ensures !IsLower(c) ==> r == c
  {
    if IsLower(c) then (c as int - 'a' as int + 'A' as int) as char else c
  }

  /**
   * The string the key is taken from, or None when a field name is
   * configured and the item lacks that field (the `console.warn` case).
   */
  function KeySource(item: Item, mf: MatchField): (r: Option<string>)
    requires KeySourceDefined(item, mf)
    ensures r.None? <==> UsesField(mf) && !HasField(item, mf.name)
    ensures r.Some? ==> r.value != ""
    ensures r.Some? && UsesField(mf) ==> r.value == item.fields[mf.name]
    ensures !UsesField(mf) ==> r == Some(item.text)
  {
    if UsesField(mf) then
      if HasField(item, mf.name) then Some(item.fields[mf.name]) else None
    else
      Some(item.text)
  }

  /** The derived key: the first character of the key source, upper-cased. */
  function KeyOf(item: Item, mf: MatchField): (r: Option<char>)
    requires KeySourceDefined(item, mf)
    ensures r.None? <==> UsesField(mf) && !HasField(item, mf.name)
    ensures r.Some? ==> !IsLower(r.value)
    ensures !UsesField(mf) ==> r == Some(Upper(item.text[0]))
    ensures UsesField(mf) && HasField(item, mf.name) ==> r == Some(Upper(item.fields[mf.name][0]))
  {
    match KeySource(item, mf)
    case None => None
    case Some(s) => Some(Upper(s[0]))
  }

  /** The `findIndex` callback of onPressLetter: the item's key equals the pressed letter. */
  predicate Matches(item: Item, mf: MatchField, letter: char)
    ensures Matches(item, mf, letter) ==> !IsLower(letter)
    ensures KeySourceDefined(item, mf) && UsesField(mf) && !HasField(item, mf.name) ==> !Matches(item, mf, letter)
    ensures !UsesField(mf) && item.Str? && item.text != "" ==> (Matches(item, mf, letter) <==> Upper(item.text[0]) == letter)
  {
    KeySourceDefined(item, mf) && KeyOf(item, mf) == Some(letter)
  }

  /** `Array.prototype.findIndex`: the least index whose element satisfies `p`, or -1. */
  function FindIndex<T>(s: seq<T>, p: T -> bool): (r: int)
    ensures -1 <= r < |s|
    ensures 0 <= r ==> p(s[r])
    ensures forall j :: 0 <= j < |s| && (r == -1 || j < r) ==> !p(s[j])
  {
    if s == [] then -1
    else if p(s[0]) then 0
    else
      var k := FindIndex(s[1..], p);
      if k == -1 then -1 else k + 1
  }

  /** The index onPressLetter scrolls to: the first item whose key is `letter`, or -1. */
  function MatchIndex(data: seq<Item>, mf: MatchField, letter: char): (r: int)
    requires AllDefined(data, mf)
    ensures -1 <= r < |data|
    ensures 0 <= r ==> KeyOf(data[r], mf) == Some(letter)
    ensures forall j :: 0 <= j < |data| && (r == -1 || j < r) ==> KeyOf(data[j], mf) != Some(letter)
  {
    FindIndex(data, item => Matches(item, mf, letter))
  }

  /** How many items `findIndex` visits: up to and including the match, or all of them. */
  function Scanned(index: int, n: nat): (r: nat)
    requires -1 <= index < n
    ensures r <= n
  {
    if index == -1 then n else index + 1
  }

  /** The indices, in ascending order, among the first `n` items that lack the configured field. */
  function MissingFieldIndices(data: seq<Item>, mf: MatchField, n: nat): (r: seq<nat>)
    requires n <= |data| && AllDefined(data, mf)
    ensures forall j: int :: j in r <==> 0 <= j < n && KeyOf(data[j], mf).None?
    ensures forall a, b :: 0 <= a < b < |r| ==> r[a] < r[b]
    ensures !UsesField(mf) ==> r == []
  {
    if n == 0 then []
    else
      var r := MissingFieldIndices(data, mf, n - 1);
      assert forall a :: 0 <= a < |r| ==> r[a] in r;
      if KeyOf(data[n - 1], mf).None? then r + [n - 1] else r
  }

  /** The warnings onPressLetter emits: one per item it visits that lacks the field, in order. */
  function PressWarnings(data: seq<Item>, mf: MatchField, letter: char): (r: seq<nat>)
    requires AllDefined(data, mf)
    ensures forall j: int :: j in r <==> 0 <= j < Scanned(MatchIndex(data, mf, letter), |data|) && KeyOf(data[j], mf).None?
    ensures forall a, b :: 0 <= a < b < |r| ==> r[a] < r[b]
    ensures !UsesField(mf) ==> r == []
  {
    MissingFieldIndices(data, mf, Scanned(MatchIndex(data, mf, letter), |data|))
  }
}
