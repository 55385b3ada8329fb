/** The string handling of the event and claim fields. */
module Text {
  import opened Wrappers

  /** ASCII white space as str.strip() sees it, the four separators included. */
  predicate Space(c: char) {
    c == ' ' || '\t' <= c <= '\r' || 0x1c <= c as int <= 0x1f
  }

  function StripLeft(s: string): string {
    if s != [] && Space(s[0]) then StripLeft(s[1..]) else s
  }

  function StripRight(s: string): string {
    if s != [] && Space(s[|s| - 1]) then StripRight(s[..|s| - 1]) else s
  }

  function Strip(s: string): string {
    StripRight(StripLeft(s))
  }

  function LowerChar(c: char): char {
    if 'A' <= c <= 'Z' then (c as int + 32) as char else c
  }

  function Lower(s: string): string {
    seq(|s|, i requires 0 <= i < |s| => LowerChar(s[i]))
  }

  function Clean(field: Option<string>): string {
    match field
    case None => ""
    case Some(s) => Lower(Strip(s))
  }

  /** `x or None` */
  function Truthy(s: string): Option<string> {
    if s == "" then None else Some(s)
  }

  /** `a or b or ...`: the first field that is present and not empty. */
  function FirstOf(fields: seq<Option<string>>): (r: Option<string>)
    ensures r.Some? ==> r.value != ""
  {
    if fields == [] then None
    else if fields[0].Some? && fields[0].value != "" then fields[0]
    else FirstOf(fields[1..])
  }

  function OrElse(field: Option<string>, default: string): string {
    match field
    case None => default
    case Some(s) => s
  }

  /** `s.split(sep, 1)[0]`: what stands before the first separator. */
  function Before(s: string, sep: char): string {
    if s == [] || s[0] == sep then [] else [s[0]] + Before(s[1..], sep)
  }

  /** What stands after the first separator, if there is one. */
  function AfterFirst(s: string, sep: char): Option<string> {
    if s == [] then None
    else if s[0] == sep then Some(s[1..])
    else AfterFirst(s[1..], sep)
  }

  lemma {:induction false} StripLeftEnds(s: string)
    ensures StripLeft(s) != [] ==> !Space(StripLeft(s)[0])
    ensures |StripLeft(s)| <= |s|
  {
    if s != [] && Space(s[0]) {
      StripLeftEnds(s[1..]);
    }
  }

  lemma {:induction false} StripRightEnds(s: string)
    ensures StripRight(s) <= s
    ensures var t := StripRight(s); t != [] ==> !Space(t[|t| - 1])
  {
    if s != [] && Space(s[|s| - 1]) {
      StripRightEnds(s[..|s| - 1]);
    }
  }

  /** Cleaning is idempotent. */
  lemma CleanTwice(field: Option<string>)
    ensures Clean(Some(Clean(field))) == Clean(field)
  {
    var s := OrElse(field, "");
    var stripped := Strip(s);
    StripLeftEnds(s);
    StripRightEnds(StripLeft(s));
    var low := Lower(stripped);
    assert stripped != [] ==> low[0] == LowerChar(stripped[0]) && low[|low| - 1] == LowerChar(stripped[|stripped| - 1]);
    assert StripLeft(low) == low && StripRight(low) == low;
    assert Lower(low) == low;
  }

  // ---------------------------------------------------------------- what the functions mean

  /** The white space that can occur in ASCII: tab to carriage return, the four separators,
      and the blank. */
  lemma WhiteSpace(c: char)
    ensures Space(c) <==> c as int in {9, 10, 11, 12, 13, 28, 29, 30, 31, 32}
  {
  }

  predicate AllSpace(s: string) {
    forall i | 0 <= i < |s| :: Space(s[i])
  }

  /** m is s without the white space around it. */
  ghost predicate IsStripped(s: string, m: string) {
    && (m != [] ==> !Space(m[0]) && !Space(m[|m| - 1]))
    && exists a, b :: AllSpace(a) && AllSpace(b) && s == a + m + b
  }

  lemma {:induction false} StripLeftSplits(s: string) returns (a: string)
    ensures AllSpace(a) && s == a + StripLeft(s)
  {
    if s != [] && Space(s[0]) {
      var rest := StripLeftSplits(s[1..]);
      a := [s[0]] + rest;
      assert s == [s[0]] + s[1..] == [s[0]] + (rest + StripLeft(s));
    } else {
      a := [];
    }
  }

  lemma {:induction false} StripRightSplits(s: string) returns (b: string)
    ensures AllSpace(b) && s == StripRight(s) + b
  {
    if s != [] && Space(s[|s| - 1]) {
      var n := |s| - 1;
      var rest := StripRightSplits(s[..n]);
      b := rest + [s[n]];
      assert s == s[..n] + [s[n]];
    } else {
      b := [];
    }
  }

  lemma {:induction false} StripLeftSkips(a: string, s: string)
    requires AllSpace(a)
    ensures StripLeft(a + s) == StripLeft(s)
  {
    if a == [] {
      assert a + s == s;
    } else {
      assert (a + s)[1..] == a[1..] + s;
      StripLeftSkips(a[1..], s);
    }
  }

  lemma {:induction false} StripRightSkips(s: string, b: string)
    requires AllSpace(b)
    ensures StripRight(s + b) == StripRight(s)
  {
    if b == [] {
      assert s + b == s;
    } else {
      var n := |b| - 1;
      assert (s + b)[..|s + b| - 1] == s + b[..n];
      StripRightSkips(s, b[..n]);
    }
  }

  lemma StripSplits(s: string)
    ensures IsStripped(s, Strip(s))
  {
    var a := StripLeftSplits(s);
    var b := StripRightSplits(StripLeft(s));
    StripLeftEnds(s);
    StripRightEnds(StripLeft(s));
    assert s == a + Strip(s) + b;
  }

  lemma StripTakes(s: string, m: string)
    requires IsStripped(s, m)
    ensures Strip(s) == m
  {
    var a, b :| AllSpace(a) && AllSpace(b) && s == a + m + b;
    assert s == a + (m + b);
    StripLeftSkips(a, m + b);
    if m == [] {
      assert m + b == b && b + [] == b;
      StripLeftSkips(b, []);
      assert StripLeft(s) == [];
    } else {
      StripRightSkips(m, b);
    }
  }

  /** str.strip(): the result is the text without the white space around it, and nothing else. */
  lemma StripIff(s: string, m: string)
    ensures Strip(s) == m <==> IsStripped(s, m)
  {
    StripSplits(s);
    if IsStripped(s, m) {
      StripTakes(s, m);
    }
  }

  /** str.lower(), letter by letter. */
  lemma LowerIff(s: string, t: string)
    ensures t == Lower(s) <==>
            && |t| == |s|
            && forall i | 0 <= i < |s| ::
                 if 'A' <= s[i] <= 'Z' then t[i] as int - 'a' as int == s[i] as int - 'A' as int else t[i] == s[i]
  {
    if |t| == |s| && forall i | 0 <= i < |s| ::
         if 'A' <= s[i] <= 'Z' then t[i] as int - 'a' as int == s[i] as int - 'A' as int else t[i] == s[i] {
      forall i | 0 <= i < |s|
        ensures t[i] == Lower(s)[i]
      {
        assert t[i] as int == LowerChar(s[i]) as int;
      }
    }
  }

  predicate Blank(field: Option<string>) {
    field == None || field == Some("")
  }

  /** v is the first of the fields that is present and not empty, if there is one. */
  ghost predicate IsFirst(fields: seq<Option<string>>, v: Option<string>) {
    match v
    case None => forall i | 0 <= i < |fields| :: Blank(fields[i])
    case Some(x) =>
      x != "" && exists i | 0 <= i < |fields| :: fields[i] == Some(x) && forall j | 0 <= j < i :: Blank(fields[j])
  }

  /** `a or b or ...` is the first field that is present and not empty, in that order. */
  lemma {:induction false} FirstOfIff(fields: seq<Option<string>>, v: Option<string>)
    ensures FirstOf(fields) == v <==> IsFirst(fields, v)
  {
    if fields != [] {
      FirstOfIff(fields[1..], v);
      if Blank(fields[0]) {
        FirstOfSkips(fields, v);
      } else {
        assert IsFirst(fields, fields[0]);
      }
    }
  }

  lemma OnlyField(field: Option<string>)
    ensures FirstOf([field]) == if Blank(field) then None else field
  {
    assert [field][1..] == [];
  }

  lemma FirstOfSkips(fields: seq<Option<string>>, v: Option<string>)
    requires fields != [] && Blank(fields[0])
    ensures IsFirst(fields, v) <==> IsFirst(fields[1..], v)
  {
    match v
    case None =>
      assert forall i | 1 <= i < |fields| :: fields[i] == fields[1..][i - 1];
    case Some(x) =>
      if i :| 0 <= i < |fields| && fields[i] == Some(x) && x != "" && forall j | 0 <= j < i :: Blank(fields[j]) {
        assert fields[1..][i - 1] == Some(x);
      }
      if i :| 0 <= i < |fields[1..]| && fields[1..][i] == Some(x) && forall j | 0 <= j < i :: Blank(fields[1..][j]) {
        assert fields[i + 1] == Some(x);
        assert forall j | 1 <= j < i + 1 :: fields[j] == fields[1..][j - 1];
      }
  }

  /** Splitting at the first separator: the parts join to the text, the first holds no separator. */
  lemma {:induction false} SplitJoins(text: string, sep: char)
    ensures sep !in Before(text, sep)
    ensures AfterFirst(text, sep).None? <==> sep !in text
    ensures AfterFirst(text, sep).None? ==> Before(text, sep) == text
    ensures AfterFirst(text, sep).Some? ==> Before(text, sep) + [sep] + AfterFirst(text, sep).value == text
  {
    if text != [] && text[0] != sep {
      SplitJoins(text[1..], sep);
      assert text == [text[0]] + text[1..];
    }
  }

  lemma {:induction false} SplitAt(u: string, sep: char, rest: string)
    requires sep !in u
    ensures Before(u + [sep] + rest, sep) == u && AfterFirst(u + [sep] + rest, sep) == Some(rest)
  {
    if u == [] {
      assert u + [sep] + rest == [sep] + rest;
    } else {
      SplitAt(u[1..], sep, rest);
      assert (u + [sep] + rest)[1..] == u[1..] + [sep] + rest;
    }
  }
}
