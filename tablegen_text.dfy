/**
 * The string utilities of the instruction-set generator: splitting on a
 * delimiter the way a `getline` loop does, trimming white space at both
 * ends, lower-casing, and escaping the words YAML 1.1 reads as booleans.
 */
module UnisonText {

  import opened Strings

  /** `e` holds no `d`. */
  predicate Free(e: string, d: char) {
    forall j :: 0 <= j < |e| ==> e[j] != d
  }

  /**
   * The fields of `s` between delimiters: one more than there are
   * delimiters, empty ones included.
   */
  function Fields(s: string, d: char): (r: seq<string>)
    ensures |r| >= 1
  {
    if s == [] then [""]
    else
      var init, c := Fields(s[..|s| - 1], d), s[|s| - 1];
      if c == d then init + [""] else init[..|init| - 1] + [init[|init| - 1] + [c]]
  }

  /**
   * What `split(s, d)` returns: every `getline` call that extracts something
   * yields one element, so an empty string gives none and a final delimiter
   * closes the last element without opening another.
   */
  function Split(s: string, d: char): seq<string> {
    if s == [] then []
    else if s[|s| - 1] == d then Fields(s[..|s| - 1], d)
    else Fields(s, d)
  }

  /** `split`: the `getline` loop, one character at a time. */
  method SplitString(s: string, d: char) returns (ret: seq<string>)
    ensures ret == Split(s, d)
  {
    ret := [];
    var element := "";
    var pending := false;
    for i := 0 to |s|
      invariant ret + [element] == Fields(s[..i], d)
      invariant pending <==> i > 0 && s[i - 1] != d
    {
      assert s[..i + 1][..i] == s[..i];
      if s[i] == d {
        ret := ret + [element];
        element := "";
        pending := false;
      } else {
        element := element + [s[i]];
        pending := true;
      }
    }
    assert s[..|s|] == s;
    if pending {
      ret := ret + [element];
    } else if s != [] {
      assert s[..|s| - 1] + [d] == s;
      assert Fields(s, d) == Fields(s[..|s| - 1], d) + [""];
      assert ret == (ret + [element])[..|ret|];
    } else {
      assert ret + [element] == [""];
    }
  }

  /** No element of the split holds the delimiter. */
  lemma {:induction false} FieldsFree(s: string, d: char)
    ensures forall k :: 0 <= k < |Fields(s, d)| ==> Free(Fields(s, d)[k], d)
    decreases |s|
  {
    if s != [] {
      FieldsFree(s[..|s| - 1], d);
    }
  }

  lemma SplitFree(s: string, d: char)
    ensures forall k :: 0 <= k < |Split(s, d)| ==> Free(Split(s, d)[k], d)
  {
    if s != [] {
      FieldsFree(s[..|s| - 1], d);
      FieldsFree(s, d);
    }
  }

  /** Joining the fields with the delimiter gives back the string. */
  lemma {:induction false} JoinFields(s: string, d: char)
    ensures Join(Fields(s, d), [d]) == s
    decreases |s|
  {
    if s != [] {
      var init, c := s[..|s| - 1], s[|s| - 1];
      var f := Fields(init, d);
      JoinFields(init, d);
      assert s == init + [c];
      if c == d {
        assert (f + [""])[..|f|] == f;
      } else {
        var g := f[..|f| - 1] + [f[|f| - 1] + [c]];
        assert g[..|g| - 1] == f[..|f| - 1];
        if |f| > 1 {
          assert Join(f, [d]) == Join(f[..|f| - 1], [d]) + [d] + f[|f| - 1];
        }
      }
    }
  }

  /** A non-empty string that does not end in the delimiter is the join of its split. */
  lemma SplitJoin(s: string, d: char)
    requires s != [] && s[|s| - 1] != d
    ensures Join(Split(s, d), [d]) == s
  {
    JoinFields(s, d);
  }

  /** A trailing delimiter adds no element. */
  lemma TrailingDelimiter(s: string, d: char)
    requires s != [] && s[|s| - 1] != d
    ensures Split(s + [d], d) == Split(s, d)
  {
    assert (s + [d])[..|s|] == s;
  }

  /** After a delimiter, another one yields an empty element. */
  lemma ConsecutiveDelimiters(s: string, d: char)
    requires s != [] && s[|s| - 1] == d
    ensures Split(s + [d], d) == Split(s, d) + [""]
  {
    assert (s + [d])[..|s|] == s;
  }

  /** `s` without its leading trimmable characters. */
  function TrimStart(s: string): (r: string)
    ensures |r| <= |s| && r == s[|s| - |r|..]
    ensures r != [] ==> !IsTrimmable(r[0])
    ensures forall i :: 0 <= i < |s| - |r| ==> IsTrimmable(s[i])
  {
    if s != [] && IsTrimmable(s[0]) then TrimStart(s[1..]) else s
  }

  /** `s` without its trailing trimmable characters. */
  function TrimEnd(s: string): (r: string)
    ensures |r| <= |s| && r == s[..|r|]
    ensures r != [] ==> !IsTrimmable(r[|r| - 1])
    ensures forall i :: |r| <= i < |s| ==> IsTrimmable(s[i])
  {
    if s != [] && IsTrimmable(s[|s| - 1]) then TrimEnd(s[..|s| - 1]) else s
  }

  function Trim(s: string): string {
    TrimEnd(TrimStart(s))
  }

  /** How many characters trimming drops at the front. */
  function Lead(s: string): nat {
    |s| - |TrimStart(s)|
  }

  /**
   * `eatWhiteSpace`: the first loop erases the first character while it is
   * white space, the second the last one.
   */
  method EatWhiteSpace(s0: string) returns (s: string)
    ensures s == Trim(s0)
  {
    s := s0;
    ghost var lead := 0;
    while |s| > 0 && IsTrimmable(s[0])
      invariant lead <= |s0| && s == s0[lead..]
      invariant forall i :: 0 <= i < lead ==> IsTrimmable(s0[i])
      decreases |s|
    {
      s := s[1..];
      lead := lead + 1;
    }
    ghost var front := s;
    while |s| > 0 && IsTrimmable(s[|s| - 1])
      invariant |s| <= |front| && s == front[..|s|]
      invariant forall i :: |s| <= i < |front| ==> IsTrimmable(front[i])
      decreases |s|
    {
      s := s[..|s| - 1];
    }
    TrimStartAt(s0, lead);
    TrimEndAt(front, |s|);
  }

  /** Dropping a trimmable prefix up to a character that is not trimmable is `TrimStart`. */
  lemma {:induction false} TrimStartAt(s: string, k: nat)
    requires k <= |s| && forall i :: 0 <= i < k ==> IsTrimmable(s[i])
    requires k == |s| || !IsTrimmable(s[k])
    ensures TrimStart(s) == s[k..]
    decreases k
  {
    if k > 0 {
      TrimStartAt(s[1..], k - 1);
      assert s[1..][k - 1..] == s[k..];
    }
  }

  /** Dropping a trimmable suffix back to a character that is not trimmable is `TrimEnd`. */
  lemma {:induction false} TrimEndAt(s: string, k: nat)
    requires k <= |s| && forall i :: k <= i < |s| ==> IsTrimmable(s[i])
    requires k == 0 || !IsTrimmable(s[k - 1])
    ensures TrimEnd(s) == s[..k]
    decreases |s| - k
  {
    if k < |s| {
      TrimEndAt(s[..|s| - 1], k);
      assert s[..|s| - 1][..k] == s[..k];
    }
  }

  /**
   * The result is the piece of `s` between a trimmable prefix and a
   * trimmable suffix, and neither begins nor ends with white space; all
   * white space inside it is kept.
   */
  lemma TrimFacts(s: string)
    ensures Lead(s) + |Trim(s)| <= |s|
    ensures Trim(s) == s[Lead(s)..Lead(s) + |Trim(s)|]
    ensures forall i :: 0 <= i < Lead(s) ==> IsTrimmable(s[i])
    ensures forall i :: Lead(s) + |Trim(s)| <= i < |s| ==> IsTrimmable(s[i])
    ensures Trim(s) != [] ==> !IsTrimmable(Trim(s)[0]) && !IsTrimmable(Trim(s)[|Trim(s)| - 1])
  {
    var t := TrimStart(s);
    var r := TrimEnd(t);
    var a := Lead(s);
    TrimSlice(s, t, r, a);
    TrimTail(s, t, r, a);
    TrimEnds(t, r);
  }

  lemma TrimSlice(s: string, t: string, r: string, a: nat)
    requires a <= |s| && t == s[a..] && |r| <= |t| && r == t[..|r|]
    ensures a + |r| <= |s| && r == s[a..a + |r|]
  {
  }

  lemma TrimEnds(t: string, r: string)
    requires r == TrimEnd(t) && (t != [] ==> !IsTrimmable(t[0]))
    ensures r != [] ==> !IsTrimmable(r[0]) && !IsTrimmable(r[|r| - 1])
  {
    if r != [] {
      assert r[0] == t[0];
    }
  }

  lemma TrimTail(s: string, t: string, r: string, a: nat)
    requires a <= |s| && t == s[a..] && |r| <= |t|
    requires forall i :: |r| <= i < |t| ==> IsTrimmable(t[i])
    ensures forall i :: a + |r| <= i < |s| ==> IsTrimmable(s[i])
  {
    forall i | a + |r| <= i < |s|
      ensures IsTrimmable(s[i])
    {
      assert s[i] == t[i - a];
    }
  }

  /** Trimming twice is trimming once. */
  lemma TrimIdempotent(s: string)
    ensures Trim(Trim(s)) == Trim(s)
  {
    var r := Trim(s);
    TrimFacts(s);
    assert TrimStart(r) == r;
    assert TrimEnd(r) == r;
  }

  /** A string of white space trims to nothing, and only such a string does. */
  lemma TrimEmptyIff(s: string)
    ensures Trim(s) == [] <==> forall i :: 0 <= i < |s| ==> IsTrimmable(s[i])
  {
    TrimFacts(s);
  }

  /** `std::tolower` in the "C" locale. */
  function ToLower(c: char): char {
    if 'A' <= c <= 'Z' then (c as int - 'A' as int + 'a' as int) as char else c
  }

  function Lower(s: string): (r: string)
    ensures |r| == |s| && forall i :: 0 <= i < |s| ==> r[i] == ToLower(s[i])
  {
    seq(|s|, i requires 0 <= i < |s| => ToLower(s[i]))
  }

  /** `downCase`: appends the lower-cased characters one by one. */
  method DownCase(s: string) returns (s1: string)
    ensures s1 == Lower(s)
  {
    s1 := "";
    for i := 0 to |s|
      invariant s1 == Lower(s[..i])
    {
      s1 := s1 + [ToLower(s[i])];
    }
    assert s[..|s|] == s;
  }

  /** Lower-casing keeps the length, leaves no upper-case letter and is idempotent. */
  lemma LowerFacts(s: string)
    ensures |Lower(s)| == |s|
    ensures forall i :: 0 <= i < |s| ==> !('A' <= Lower(s)[i] <= 'Z')
    ensures Lower(Lower(s)) == Lower(s)
  {
  }

  /** The plain scalars YAML 1.1 reads as booleans. */
  const YamlBooleans: set<string> := {"true", "false", "n", "y", "yes", "no", "on", "off"}

  /** `escape`: a name whose lower-cased form is a YAML boolean gets a quote appended. */
  function Escape(name: string): (r: string)
    ensures Lower(name) in YamlBooleans ==> r == name + "'"
    ensures Lower(name) !in YamlBooleans ==> r == name
  {
    if Lower(name) in YamlBooleans then name + "'" else name
  }

  /** No YAML boolean ends in a quote. */
  lemma QuotedIsNoBoolean(w: string)
    ensures w + "'" !in YamlBooleans
  {
    var q := w + "'";
    assert q[|q| - 1] == '\'';
  }

  /** Escaping an escaped name changes nothing. */
  lemma EscapeIdempotent(name: string)
    ensures Escape(Escape(name)) == Escape(name)
  {
    if Lower(name) in YamlBooleans {
      assert Lower(name + "'") == Lower(name) + "'";
      QuotedIsNoBoolean(Lower(name));
    }
  }

  /** Escaping only ever appends one quote, to exactly the boolean-looking names. */
  lemma EscapeChangesIff(name: string)
    ensures Escape(name) != name <==> Lower(name) in YamlBooleans
    ensures Escape(name) != name ==> Escape(name) == name + "'"
    ensures Escape("Yes") == "Yes'" && Escape("src1") == "src1"
  {
    assert Lower("Yes") == "yes";
    assert Lower("src1") == "src1";
  }
}
