/** The text forms the scheduler keeps numbers in: "-"-joined device ids in a pod's
    annotation and ","-terminated milli values in a memo key. Both read back uniquely. */
module Decimal {

  datatype Option<+T> = None | Some(value: T)

  const DEV_ID_SEP := '-'

  // ----- decimal numerals -------------------------------------------------------------

  predicate IsDigit(c: char) { '0' <= c <= '9' }

  predicate AllDigits(s: string) {
    forall i | 0 <= i < |s| :: IsDigit(s[i])
  }

  function Digits(n: nat): (s: string)
    ensures |s| > 0
  {
    var last := [('0' as int + n % 10) as char];
    if n < 10 then last else Digits(n / 10) + last
  }

  function DigitsValue(s: string): int {
    if s == "" then 0
    else 10 * DigitsValue(s[..|s| - 1]) + (s[|s| - 1] as int - '0' as int)
  }

  function Itoa(n: int): (s: string)
    ensures |s| > 0
  {
    if n < 0 then "-" + Digits(-n) else Digits(n)
  }

  /** An optional sign and at least one digit; anything else is an error. */
  function Atoi(s: string): Option<int> {
    var body := if s != "" && (s[0] == '-' || s[0] == '+') then s[1..] else s;
    if body == "" || !AllDigits(body) then None
    else Some(if s[0] == '-' then -DigitsValue(body) else DigitsValue(body))
  }

  lemma {:induction false} DigitsRoundTrip(n: nat)
    ensures AllDigits(Digits(n)) && DigitsValue(Digits(n)) == n
  {
    var s := Digits(n);
    if n < 10 {
      assert s[..0] == "";
    } else {
      DigitsRoundTrip(n / 10);
      assert s[..|s| - 1] == Digits(n / 10);
    }
  }

  lemma AtoiItoa(n: int)
    ensures Atoi(Itoa(n)) == Some(n)
  {
    var s := Itoa(n);
    if n < 0 {
      assert s[1..] == Digits(-n);
      DigitsRoundTrip(-n);
    } else {
      DigitsRoundTrip(n);
      assert IsDigit(s[0]);
    }
  }

  lemma ItoaPlain(n: int, sep: char)
    requires !IsDigit(sep) && (n < 0 ==> sep != '-')
    ensures sep !in Itoa(n)
  {
    DigitsRoundTrip(if n < 0 then -n else n);
  }

  // ----- separators -------------------------------------------------------------------

  /** The parts of s between occurrences of sep: always at least one. */
  function Split(s: string, sep: char): (parts: seq<string>)
    ensures |parts| > 0
  {
    if s == "" then [""]
    else
      var rest := Split(s[1..], sep);
      if s[0] == sep then [""] + rest else [[s[0]] + rest[0]] + rest[1..]
  }

  lemma {:induction false} SplitHead(part: string, sep: char, rest: string)
    requires sep !in part
    ensures Split(part + [sep] + rest, sep) == [part] + Split(rest, sep)
  {
    var s := part + [sep] + rest;
    if part == "" {
      assert s[1..] == rest;
    } else {
      assert s[1..] == part[1..] + [sep] + rest;
      SplitHead(part[1..], sep, rest);
      assert part == [part[0]] + part[1..];
    }
  }

  lemma {:induction false} SplitNone(part: string, sep: char)
    requires sep !in part
    ensures Split(part, sep) == [part]
  {
    if part != "" {
      SplitNone(part[1..], sep);
      assert part == [part[0]] + part[1..];
    }
  }

  // ----- device id lists --------------------------------------------------------------

  /** "2-3-4" for [2, 3, 4]; the empty string for no device. */
  function JoinIds(ids: seq<int>): string {
    if ids == [] then ""
    else if |ids| == 1 then Itoa(ids[0])
    else JoinIds(ids[..|ids| - 1]) + [DEV_ID_SEP] + Itoa(ids[|ids| - 1])
  }

  /** What the parser returns: the ids read so far, and whether it met no error. */
  datatype ParsedIds = ParsedIds(idl: seq<int>, ok: bool)

  function ParseParts(parts: seq<string>): ParsedIds {
    if parts == [] then ParsedIds([], true)
    else
      var front := ParseParts(parts[..|parts| - 1]);
      if !front.ok then front
      else match Atoi(parts[|parts| - 1])
        case None => ParsedIds(front.idl, false)
        case Some(id) => ParsedIds(front.idl + [id], true)
  }

  function ParseIds(id: string): ParsedIds {
    if id == "" then ParsedIds([], true) else ParseParts(Split(id, DEV_ID_SEP))
  }

  /** The first bad part decides the result. */
  lemma {:induction false} ParsePartsStops(parts: seq<string>, k: nat)
    requires k <= |parts| && !ParseParts(parts[..k]).ok
    ensures ParseParts(parts) == ParseParts(parts[..k])
  {
    if k == |parts| {
      assert parts[..k] == parts;
    } else {
      var front := parts[..|parts| - 1];
      assert front[..k] == parts[..k];
      ParsePartsStops(front, k);
    }
  }

  method GpuIdStrToIntList(id: string) returns (parsed: ParsedIds)
    ensures parsed == ParseIds(id)
  {
    if |id| <= 0 {
      return ParsedIds([], true);
    }
    var idl := [];
    var res := Split(id, DEV_ID_SEP);
    for k := 0 to |res|
      invariant ParseParts(res[..k]) == ParsedIds(idl, true)
    {
      assert res[..k + 1][..k] == res[..k];
      match Atoi(res[k]) {
        case Some(idx) => idl := idl + [idx];
        case None =>
          ParsePartsStops(res, k + 1);
          return ParsedIds(idl, false);
      }
    }
    assert res[..|res|] == res;
    parsed := ParsedIds(idl, true);
  }

  lemma {:induction false} SplitLast(front: string, part: string, sep: char)
    requires sep !in part
    ensures Split(front + [sep] + part, sep) == Split(front, sep) + [part]
  {
    var s := front + [sep] + part;
    if front == "" {
      assert s[1..] == part;
      SplitNone(part, sep);
    } else {
      assert s[1..] == front[1..] + [sep] + part;
      SplitLast(front[1..], part, sep);
    }
  }

  lemma ParseLast(parts: seq<string>, last: int)
    requires ParseParts(parts).ok
    ensures ParseParts(parts + [Itoa(last)]) == ParsedIds(ParseParts(parts).idl + [last], true)
  {
    AtoiItoa(last);
    assert (parts + [Itoa(last)])[..|parts|] == parts;
  }

  lemma {:induction false} JoinIdsParts(ids: seq<int>)
    requires forall i | 0 <= i < |ids| :: 0 <= ids[i]
    requires ids != []
    ensures JoinIds(ids) != ""
    ensures ParseParts(Split(JoinIds(ids), DEV_ID_SEP)) == ParsedIds(ids, true)
  {
    var k := |ids| - 1;
    var front := ids[..k];
    assert ids == front + [ids[k]];
    if front == [] {
      assert ids == [ids[0]];
      ItoaPlain(ids[0], DEV_ID_SEP);
      SplitNone(Itoa(ids[0]), DEV_ID_SEP);
      ParseLast([], ids[0]);
      assert [] + [Itoa(ids[0])] == [Itoa(ids[0])];
    } else {
      JoinIdsParts(front);
      ItoaPlain(ids[k], DEV_ID_SEP);
      SplitLast(JoinIds(front), Itoa(ids[k]), DEV_ID_SEP);
      ParseLast(Split(JoinIds(front), DEV_ID_SEP), ids[k]);
    }
  }

  /** Printing a list of device ids and reading it back gives the list. */
  lemma IdsRoundTrip(ids: seq<int>)
    requires forall i | 0 <= i < |ids| :: 0 <= ids[i]
    ensures ParseIds(JoinIds(ids)) == ParsedIds(ids, true)
    ensures JoinIds(ids) == "" <==> ids == []
  {
    if ids != [] {
      JoinIdsParts(ids);
    }
  }

  // ----- the milli text of a memo key --------------------------------------------------

  /** "600,350,200," for [600, 350, 200]. */
  function Terminated(values: seq<int>): string {
    if values == [] then "" else Itoa(values[0]) + "," + Terminated(values[1..])
  }

  lemma {:induction false} TerminatedAppend(a: seq<int>, b: seq<int>)
    ensures Terminated(a + b) == Terminated(a) + Terminated(b)
  {
    if a == [] {
      assert a + b == b;
    } else {
      assert (a + b)[1..] == a[1..] + b;
      TerminatedAppend(a[1..], b);
    }
  }

  lemma TerminatedHead(a: seq<int>)
    requires a != []
    ensures Split(Terminated(a), ',') == [Itoa(a[0])] + Split(Terminated(a[1..]), ',')
  {
    ItoaPlain(a[0], ',');
    SplitHead(Itoa(a[0]), ',', Terminated(a[1..]));
    assert Terminated(a) == Itoa(a[0]) + [','] + Terminated(a[1..]);
  }

  lemma {:induction false} TerminatedInjective(a: seq<int>, b: seq<int>)
    requires Split(Terminated(a), ',') == Split(Terminated(b), ',')
    ensures a == b
  {
    if a != [] {
      TerminatedHead(a);
    }
    if b != [] {
      TerminatedHead(b);
    }
    if a != [] && b != [] {
      var x, y := [Itoa(a[0])], [Itoa(b[0])];
      var p, q := Split(Terminated(a[1..]), ','), Split(Terminated(b[1..]), ',');
      assert (x + p)[0] == (y + q)[0];
      assert (x + p)[1..] == p && (y + q)[1..] == q;
      AtoiItoa(a[0]);
      AtoiItoa(b[0]);
      TerminatedInjective(a[1..], b[1..]);
      assert a == [a[0]] + a[1..] && b == [b[0]] + b[1..];
    }
  }
}
