/**
 Reading annotation values: trimming, comma lists and status codes.
 */
module Annotations {
  import opened Base

  /** White space as Unicode defines it. */
  predicate IsSpace(c: char) {
    var x := c as int;
    || 0x09 <= x <= 0x0D || x == 0x20 || x == 0x85 || x == 0xA0 || x == 0x1680 || 0x2000 <= x <= 0x200A
    || x == 0x2028 || x == 0x2029 || x == 0x202F || x == 0x205F || x == 0x3000
  }

  function TrimLeft(s: string): string {
    if s != [] && IsSpace(s[0]) then TrimLeft(s[1..]) else s
  }

  function TrimRight(s: string): string {
    if s != [] && IsSpace(s[|s| - 1]) then TrimRight(s[..|s| - 1]) else s
  }

  function TrimSpace(s: string): string {
    TrimRight(TrimLeft(s))
  }

  /** The parts between commas. */
  function Split(s: string): seq<string> {
    if s == [] then [""]
    else if s[0] == ',' then [""] + Split(s[1..])
    else
      var rest := Split(s[1..]);
      if rest == [] then [[s[0]]] else [[s[0]] + rest[0]] + rest[1..]
  }

  function Trimmed(parts: seq<string>): seq<string> {
    seq(|parts|, i requires 0 <= i < |parts| => TrimSpace(parts[i]))
  }

  function DropBlank(parts: seq<string>): seq<string> {
    if parts == [] then []
    else
      var n := |parts| - 1;
      if parts[n] == "" then DropBlank(parts[..n]) else DropBlank(parts[..n]) + [parts[n]]
  }

  /** A comma-separated value as its trimmed, non-empty entries. */
  function SplitList(s: string): seq<string> {
    DropBlank(Trimmed(Split(s)))
  }

  predicate AllSpace(s: string) {
    forall i :: 0 <= i < |s| ==> IsSpace(s[i])
  }

  /** No space at either end. */
  predicate Tight(s: string) {
    s != [] ==> !IsSpace(s[0]) && !IsSpace(s[|s| - 1])
  }

  lemma {:induction false} TrimLeftExact(s: string) returns (lead: string)
    ensures s == lead + TrimLeft(s) && AllSpace(lead) && (TrimLeft(s) != [] ==> !IsSpace(TrimLeft(s)[0]))
  {
    lead := [];
    if s != [] && IsSpace(s[0]) {
      lead := TrimLeftExact(s[1..]);
      lead := [s[0]] + lead;
    }
  }

  lemma {:induction false} TrimRightExact(s: string) returns (trail: string)
    ensures s == TrimRight(s) + trail && AllSpace(trail)
    ensures TrimRight(s) != [] ==> !IsSpace(TrimRight(s)[|TrimRight(s)| - 1]) && TrimRight(s)[0] == s[0]
  {
    trail := [];
    if s != [] && IsSpace(s[|s| - 1]) {
      trail := TrimRightExact(s[..|s| - 1]);
      trail := trail + [s[|s| - 1]];
    }
  }

  /** Trimming takes white space off both ends, all of it and nothing else. */
  lemma TrimExact(s: string) returns (lead: string, trail: string)
    ensures s == lead + TrimSpace(s) + trail && AllSpace(lead) && AllSpace(trail) && Tight(TrimSpace(s))
  {
    lead := TrimLeftExact(s);
    trail := TrimRightExact(TrimLeft(s));
  }

  /** The parts put back together with commas between them. */
  function Join(parts: seq<string>): string {
    if parts == [] then "" else if |parts| == 1 then parts[0] else parts[0] + [','] + Join(parts[1..])
  }

  predicate CommaFree(parts: seq<string>) {
    forall i :: 0 <= i < |parts| ==> ',' !in parts[i]
  }

  /** A first character in front of the first part. */
  function Prefixed(c: char, parts: seq<string>): seq<string>
    requires parts != []
  {
    [[c] + parts[0]] + parts[1..]
  }

  lemma PrefixedJoins(c: char, parts: seq<string>)
    requires parts != []
    ensures Join(Prefixed(c, parts)) == [c] + Join(parts)
  {
    var all, tail := Prefixed(c, parts), Join(parts[1..]);
    assert all[1..] == parts[1..] && |all| == |parts|;
    if |parts| > 1 {
      Regroup([c], parts[0], [',']);
      Regroup([c], parts[0] + [','], tail);
    }
  }

  lemma PrefixedCommaFree(c: char, parts: seq<string>)
    requires parts != [] && CommaFree(parts) && c != ','
    ensures CommaFree(Prefixed(c, parts))
  {
    var all := Prefixed(c, parts);
    forall i | 0 <= i < |all| ensures ',' !in all[i] {
      assert i > 0 ==> all[i] == parts[i];
    }
  }

  /** Splitting loses nothing, and no part holds a comma. */
  lemma {:induction false} SplitExact(s: string)
    ensures Split(s) != [] && Join(Split(s)) == s && CommaFree(Split(s))
  {
    if s != [] {
      SplitExact(s[1..]);
      var rest := Split(s[1..]);
      assert s == [s[0]] + s[1..];
      if s[0] == ',' {
        assert Split(s)[1..] == rest;
      } else {
        PrefixedJoins(s[0], rest);
        PrefixedCommaFree(s[0], rest);
        assert Split(s) == Prefixed(s[0], rest);
      }
    }
  }

  predicate Increasing(at: seq<nat>) {
    forall i, j :: 0 <= i < j < |at| ==> at[i] < at[j]
  }

  /** Entry i is the non-blank part at place at[i]. */
  predicate Picks(parts: seq<string>, entries: seq<string>, at: seq<nat>) {
    |at| == |entries| && forall i :: 0 <= i < |at| ==> at[i] < |parts| && entries[i] == parts[at[i]] && entries[i] != ""
  }

  predicate Picked(at: seq<nat>, p: nat) {
    exists i :: 0 <= i < |at| && at[i] == p
  }

  /** The entries are the parts at the given places, in order; every other part is blank. */
  ghost predicate PickedAt(parts: seq<string>, entries: seq<string>, at: seq<nat>) {
    Increasing(at) && Picks(parts, entries, at) && forall p: nat :: p < |parts| && parts[p] != "" ==> Picked(at, p)
  }

  /** One more part: blank and skipped, or the next entry. */
  lemma PickedSnoc(parts: seq<string>, entries: seq<string>, at: seq<nat>, part: string)
    requires PickedAt(parts, entries, at)
    ensures part == "" ==> PickedAt(parts + [part], entries, at)
    ensures part != "" ==> PickedAt(parts + [part], entries + [part], at + [|parts|])
  {
    var n, more := |parts|, at + [|parts|];
    assert more[|at|] == n && Picked(more, n);
    forall p: nat | Picked(at, p) ensures Picked(more, p) {
      var i :| 0 <= i < |at| && at[i] == p;
      assert more[i] == p;
    }
    assert forall p: nat :: p < n ==> (parts + [part])[p] == parts[p];
  }

  /** The places of the parts that are not blank. */
  function NonBlankAt(parts: seq<string>): seq<nat> {
    if parts == [] then []
    else
      var n := |parts| - 1;
      if parts[n] == "" then NonBlankAt(parts[..n]) else NonBlankAt(parts[..n]) + [n]
  }

  lemma {:induction false} DropBlankPicks(parts: seq<string>)
    ensures PickedAt(parts, DropBlank(parts), NonBlankAt(parts))
  {
    if parts != [] {
      var n := |parts| - 1;
      var pre := parts[..n];
      assert pre + [parts[n]] == parts;
      DropBlankPicks(pre);
      PickedSnoc(pre, DropBlank(pre), NonBlankAt(pre), parts[n]);
    }
  }

  /**
   Splitting at commas loses nothing, and the entries are exactly its parts that are not blank, trimmed and in order;
   each is tight and free of commas.
   */
  lemma SplitListExact(s: string)
    ensures var parts := Trimmed(Split(s)); Join(Split(s)) == s && PickedAt(parts, SplitList(s), NonBlankAt(parts))
    ensures forall i :: 0 <= i < |SplitList(s)| ==> Tight(SplitList(s)[i]) && ',' !in SplitList(s)[i]
  {
    SplitExact(s);
    DropBlankPicks(Trimmed(Split(s)));
    var at := NonBlankAt(Trimmed(Split(s)));
    forall i | 0 <= i < |SplitList(s)| ensures Tight(SplitList(s)[i]) && ',' !in SplitList(s)[i] {
      EntryClean(Split(s)[at[i]]);
    }
  }

  lemma EntryClean(part: string)
    requires ',' !in part
    ensures Tight(TrimSpace(part)) && ',' !in TrimSpace(part)
  {
    var lead, trail := TrimExact(part);
    assert forall c :: c in TrimSpace(part) ==> c in lead + TrimSpace(part) + trail;
  }

  lemma {:induction false} SplitBlank(s: string)
    requires AllSpace(s)
    ensures Split(s) == [s]
  {
    if s != [] {
      SplitBlank(s[1..]);
      assert [s[0]] + s[1..] == s;
    }
  }

  /** A blank value has no entries. */
  lemma BlankHasNoEntries(s: string)
    requires TrimSpace(s) == ""
    ensures SplitList(s) == []
  {
    var lead, trail := TrimExact(s);
    SplitBlank(s);
    assert Trimmed([s]) == [""] && [""][..0] == [];
    assert DropBlank([""]) == [];
  }

  lemma SplitOneEntry() returns (entries: seq<string>)
    ensures entries == ["x"] == SplitList("x") && TrimSpace("x") == "x"
  {
    var s := "x";
    var rest := Split(s[1..]);
    assert s[1..] == "" && rest == [""] && rest[1..] == [] && [s[0]] + rest[0] == s;
    assert Split(s) == ["x"];
    assert TrimLeft(s) == s && TrimRight(s) == s;
    entries := ["x"];
    assert Trimmed(entries) == entries && entries[..0] == [];
    assert DropBlank(entries) == ["x"];
  }

  function Digits(s: string, value: nat): Option<nat> {
    if s == [] then Some(value)
    else if '0' <= s[0] <= '9' then Digits(s[1..], 10 * value + (s[0] as int - '0' as int))
    else None
  }

  const MAX_INT: int := 0x7FFF_FFFF_FFFF_FFFF

  /** A decimal integer of the machine's word, with an optional sign. */
  function Atoi(s: string): Option<int> {
    var signed := s != [] && (s[0] == '-' || s[0] == '+');
    var body := if signed then s[1..] else s;
    if body == [] then None
    else match Digits(body, 0)
    case None => None
    case Some(n) =>
      var value: int := n;
      if signed && s[0] == '-' then (if value <= MAX_INT + 1 then Some(-value) else None)
      else if n <= MAX_INT then Some(n) else None
  }

  // ----- status codes

  predicate AllDigits(s: string) {
    forall i :: 0 <= i < |s| ==> '0' <= s[i] <= '9'
  }

  function DigitOf(c: char): int {
    c as int - '0' as int
  }

  /** The number that results from writing the digits behind a number in base ten. */
  function Followed(value: int, s: string): int {
    if s == [] then value else 10 * Followed(value, s[..|s| - 1]) + DigitOf(s[|s| - 1])
  }

  /** The number a string of digits writes. */
  function Decimal(s: string): int {
    Followed(0, s)
  }

  lemma {:induction false} FollowedFirst(value: int, s: string)
    requires s != []
    ensures Followed(value, s) == Followed(10 * value + DigitOf(s[0]), s[1..])
  {
    var n := |s| - 1;
    if n == 0 {
      assert s[..0] == [] && s[1..] == [];
    } else {
      FollowedFirst(value, s[..n]);
      assert s[..n][1..] == s[1..][..n - 1] && s[1..][n - 1] == s[n];
    }
  }

  lemma {:induction false} DigitsAreDecimal(s: string, value: nat)
    ensures Digits(s, value).Some? <==> AllDigits(s)
    ensures AllDigits(s) ==> Digits(s, value).value == Followed(value, s)
  {
    if s != [] && '0' <= s[0] <= '9' {
      DigitsAreDecimal(s[1..], 10 * value + DigitOf(s[0]));
      FollowedFirst(value, s);
      assert forall i :: 0 < i < |s| ==> s[i] == s[1..][i - 1];
    }
  }

  /** A number is read from an optional sign and digits, by their decimal value, if the machine's word holds it. */
  lemma AtoiExact(s: string, n: int)
    ensures Atoi(s) == Some(n) <==>
              var signed := s != [] && (s[0] == '-' || s[0] == '+');
              var body := if signed then s[1..] else s;
              && body != [] && AllDigits(body) && -MAX_INT - 1 <= n <= MAX_INT
              && n == if signed && s[0] == '-' then -Decimal(body) else Decimal(body)
  {
    var signed := s != [] && (s[0] == '-' || s[0] == '+');
    DigitsAreDecimal(if signed then s[1..] else s, 0);
  }
}
