/** The form in which the registry's server list travels: joined with commas by the registry, split and
    trimmed again by the client. */
module ServerList {
  const COMMA := ','

  /** unicode.IsSpace. */
  predicate IsSpace(c: char) {
    '\t' <= c <= '\r' || c == ' ' || c == '\U{85}' || c == '\U{A0}' || c == '\U{1680}' ||
    '\U{2000}' <= c <= '\U{200A}' || c == '\U{2028}' || c == '\U{2029}' || c == '\U{202F}' ||
    c == '\U{205F}' || c == '\U{3000}'
  }

  /** strings.Join with ",". */
  function Join(list: seq<string>): string {
    if list == [] then "" else if |list| == 1 then list[0] else list[0] + [COMMA] + Join(list[1..])
  }

  /** strings.Split at ",". */
  function Split(s: string): (parts: seq<string>)
    ensures |parts| >= 1
  {
    if s == "" then [""]
    else
      var rest := Split(s[1..]);
      if s[0] == COMMA then [""] + rest else [[s[0]] + rest[0]] + rest[1..]
  }

  function TrimLeft(s: string): string {
    if s != "" && IsSpace(s[0]) then TrimLeft(s[1..]) else s
  }

  function TrimRight(s: string): string {
    if s != "" && IsSpace(s[|s| - 1]) then TrimRight(s[..|s| - 1]) else s
  }

  /** strings.TrimSpace. */
  function TrimSpace(s: string): string { TrimRight(TrimLeft(s)) }

  /** A part is kept, trimmed, if there is anything left after trimming. */
  function KeepOne(part: string): seq<string> {
    var trimmed := TrimSpace(part);
    if trimmed != "" then [trimmed] else []
  }

  function Kept(parts: seq<string>): seq<string> {
    if parts == [] then [] else KeepOne(parts[0]) + Kept(parts[1..])
  }

  /** What the client makes of the header. */
  function Parse(header: string): seq<string> { Kept(Split(header)) }

  /** An address that survives the trip. */
  predicate Clean(s: string) {
    s != "" && COMMA !in s && !IsSpace(s[0]) && !IsSpace(s[|s| - 1])
  }

  /** Split is the inverse of Join that leaves no comma inside a part. */
  lemma {:induction false} SplitInvertsJoin(s: string)
    ensures Join(Split(s)) == s
    ensures forall k :: 0 <= k < |Split(s)| ==> ',' !in Split(s)[k]
  {
    if s != "" {
      SplitInvertsJoin(s[1..]);
      var rest := Split(s[1..]);
      assert s == [s[0]] + s[1..];
      if s[0] == COMMA {
        assert Split(s)[1..] == rest;
      } else {
        assert Split(s)[1..] == rest[1..];
        assert rest == [rest[0]] + rest[1..];
        if |rest| > 1 {
          assert [s[0]] + (rest[0] + [COMMA] + Join(rest[1..])) == ([s[0]] + rest[0]) + [COMMA] + Join(rest[1..]);
        }
      }
    }
  }

  lemma {:induction false} SplitAtComma(s: string, rest: string)
    requires COMMA !in s
    ensures Split(s) == [s] && Split(s + [COMMA] + rest) == [s] + Split(rest)
  {
    if s == "" {
      assert s + [COMMA] + rest == [COMMA] + rest;
    } else {
      SplitAtComma(s[1..], rest);
      assert (s + [COMMA] + rest)[1..] == s[1..] + [COMMA] + rest;
      assert s == [s[0]] + s[1..];
    }
  }

  lemma {:induction false} JoinThenSplit(list: seq<string>)
    requires list != [] && forall k :: 0 <= k < |list| ==> COMMA !in list[k]
    ensures Split(Join(list)) == list
  {
    if |list| == 1 {
      SplitAtComma(list[0], "");
    } else {
      JoinThenSplit(list[1..]);
      SplitAtComma(list[0], Join(list[1..]));
      assert list == [list[0]] + list[1..];
    }
  }

  lemma {:induction false} TrimLeftShape(s: string)
    ensures TrimLeft(s) != "" ==> !IsSpace(TrimLeft(s)[0])
    ensures COMMA !in s ==> COMMA !in TrimLeft(s)
  {
    if s != "" && IsSpace(s[0]) {
      TrimLeftShape(s[1..]);
    }
  }

  lemma {:induction false} TrimRightShape(s: string)
    ensures TrimRight(s) <= s
    ensures TrimRight(s) != "" ==> !IsSpace(TrimRight(s)[|TrimRight(s)| - 1])
    ensures COMMA !in s ==> COMMA !in TrimRight(s)
  {
    if s != "" && IsSpace(s[|s| - 1]) {
      TrimRightShape(s[..|s| - 1]);
    }
  }

  predicate AllSpace(s: string) {
    forall k :: 0 <= k < |s| ==> IsSpace(s[k])
  }

  lemma {:induction false} TrimLeftCuts(s: string) returns (left: string)
    ensures AllSpace(left) && s == left + TrimLeft(s)
  {
    left := "";
    if s != "" && IsSpace(s[0]) {
      var more := TrimLeftCuts(s[1..]);
      left := [s[0]] + more;
      assert s == [s[0]] + s[1..];
    }
  }

  lemma {:induction false} TrimRightCuts(s: string) returns (right: string)
    ensures AllSpace(right) && s == TrimRight(s) + right
  {
    right := "";
    if s != "" && IsSpace(s[|s| - 1]) {
      var more := TrimRightCuts(s[..|s| - 1]);
      right := more + [s[|s| - 1]];
      assert s == s[..|s| - 1] + [s[|s| - 1]];
    }
  }

  /** Trimming removes space at both ends and nothing else, and stops at the first other character. */
  lemma TrimSpaceCuts(s: string) returns (left: string, right: string)
    ensures AllSpace(left) && AllSpace(right) && s == left + TrimSpace(s) + right
    ensures var t := TrimSpace(s); t != "" ==> !IsSpace(t[0]) && !IsSpace(t[|t| - 1])
    ensures TrimSpace(s) == "" <==> AllSpace(s)
  {
    left := TrimLeftCuts(s);
    right := TrimRightCuts(TrimLeft(s));
    TrimLeftShape(s);
    TrimRightShape(TrimLeft(s));
    var t := TrimSpace(s);
    assert s == left + t + right;
    if t != "" {
      assert s[|left|] == t[0];
    }
  }

  /** Between what space there may be around it, a clean address is found again. */
  lemma PaddedIsKept(left: string, addr: string, right: string)
    requires AllSpace(left) && AllSpace(right) && Clean(addr)
    ensures KeepOne(left + addr + right) == [addr]
  {
    PaddedLeft(left, addr + right);
    assert left + addr + right == left + (addr + right);
    PaddedRight(addr, right);
  }

  lemma {:induction false} PaddedLeft(left: string, s: string)
    requires AllSpace(left) && s != "" && !IsSpace(s[0])
    ensures TrimLeft(left + s) == s
  {
    if left == "" {
      assert left + s == s;
    } else {
      assert (left + s)[1..] == left[1..] + s;
      PaddedLeft(left[1..], s);
    }
  }

  lemma {:induction false} PaddedRight(s: string, right: string)
    requires AllSpace(right) && s != "" && !IsSpace(s[|s| - 1])
    ensures TrimRight(s + right) == s
  {
    if right == "" {
      assert s + right == s;
    } else {
      var t := s + right;
      assert t[..|t| - 1] == s + right[..|right| - 1];
      PaddedRight(s, right[..|right| - 1]);
    }
  }

  lemma {:induction false} KeptAreClean(parts: seq<string>)
    requires forall k :: 0 <= k < |parts| ==> COMMA !in parts[k]
    ensures forall k :: 0 <= k < |Kept(parts)| ==> Clean(Kept(parts)[k])
  {
    if parts != [] {
      KeptAreClean(parts[1..]);
      TrimLeftShape(parts[0]);
      TrimRightShape(TrimLeft(parts[0]));
    }
  }

  lemma {:induction false} CleanAreKept(list: seq<string>)
    requires forall k :: 0 <= k < |list| ==> Clean(list[k])
    ensures Kept(list) == list
  {
    if list != [] {
      CleanAreKept(list[1..]);
      assert list == [list[0]] + list[1..];
    }
  }

  /** Whatever the header says, the client ends up with addresses that would survive another trip. */
  lemma ParsedAreClean(header: string)
    ensures forall k :: 0 <= k < |Parse(header)| ==> Clean(Parse(header)[k])
  {
    SplitInvertsJoin(header);
    KeptAreClean(Split(header));
  }

  /** The client recovers exactly the registry's list, the empty one included, if and only if every
      address in it is non-empty, free of commas and has no space at either end. */
  lemma RoundTripIffClean(list: seq<string>)
    ensures Parse(Join(list)) == list <==> forall k :: 0 <= k < |list| ==> Clean(list[k])
  {
    if forall k :: 0 <= k < |list| ==> Clean(list[k]) {
      if list == [] {
        assert Split("") == [""] && Kept([""]) == [];
      } else {
        JoinThenSplit(list);
        CleanAreKept(list);
      }
    }
    if Parse(Join(list)) == list {
      ParsedAreClean(Join(list));
    }
  }
}
