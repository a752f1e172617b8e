/** The static whitelist: the set of library signatures known to be pure,
    built once from the lines of an embedded resource. It is a value that the
    classification is given, not global state. */
module PurityWhitelist {
  import opened Wrappers
  import opened Text
  import Signatures

  /** Does `s` contain a comma directly followed by a space? */
  predicate HasCommaSpace(s: string) {
    exists i :: 0 <= i < |s| - 1 && s[i] == ',' && s[i + 1] == ' '
  }

  /** `s` with its spaces removed: what normalisation must leave unchanged. */
  function WithoutSpaces(s: string): string {
    if s == [] then []
    else (if s[0] == ' ' then [] else [s[0]]) + WithoutSpaces(s[1..])
  }

  /** `NormalizeSignature`: `s.Replace(", ", ",")`, scanning left to right
      and replacing non-overlapping occurrences. */
  function NormalizeSignature(s: string): (r: string)
    ensures |r| <= |s|
    ensures s != [] ==> r != [] && r[0] == s[0]
  {
    if |s| < 2 then s
    else if s[0] == ',' && s[1] == ' ' then "," + NormalizeSignature(s[2..])
    else [s[0]] + NormalizeSignature(s[1..])
  }

  /** The signatures that the lines of the resource give, or the empty set
      when the resource is missing. */
  function Entries(resource: Option<seq<string>>): set<string> {
    if resource.None? then {} else LineEntries(resource.value)
  }

  /** The normalised non-blank lines. */
  function LineEntries(lines: seq<string>): set<string> {
    if lines == [] then {}
    else
      var last := lines[|lines| - 1];
      LineEntries(lines[..|lines| - 1]) + (if IsBlank(last) then {} else {NormalizeSignature(last)})
  }

  /** `LoadWhitelist`: reads the resource line by line into a set. */
  method LoadWhitelist(resource: Option<seq<string>>) returns (signatures: set<string>)
    ensures signatures == Entries(resource)
  {
    if resource.None? {
      return {};
    }
    var lines := resource.value;
    signatures := {};
    var i := 0;
    while i < |lines|
      invariant 0 <= i <= |lines|
      invariant signatures == LineEntries(lines[..i])
    {
      var line := lines[i];
      if !IsBlank(line) {
        signatures := signatures + {NormalizeSignature(line)};
      }
      assert lines[..i + 1][..i] == lines[..i];
      i := i + 1;
    }
    assert lines[..i] == lines;
  }

  /** `IsWhitelisted`: exact, case-sensitive set membership; nothing is
      whitelisted by an empty set. */
  function IsWhitelisted(whitelist: set<string>, signature: string): (r: bool)
    ensures r ==> Count(whitelist) >= 1
  {
    signature in whitelist
  }

  /** `Count`: the number of distinct signatures; zero exactly for the empty
      set. */
  function Count(whitelist: set<string>): (c: nat)
    ensures c == 0 <==> whitelist == {}
  {
    |whitelist|
  }

  // ---------------------------------------------------------------------
  // Properties

  /** Normalisation deletes spaces and nothing else. */
  lemma {:induction false} NormalizeOnlyDeletesSpaces(s: string)
    ensures WithoutSpaces(NormalizeSignature(s)) == WithoutSpaces(s)
  {
    if |s| < 2 {
    } else if s[0] == ',' && s[1] == ' ' {
      NormalizeOnlyDeletesSpaces(s[2..]);
      assert s[1..][1..] == s[2..];
      assert ("," + NormalizeSignature(s[2..]))[1..] == NormalizeSignature(s[2..]);
    } else {
      NormalizeOnlyDeletesSpaces(s[1..]);
      assert ([s[0]] + NormalizeSignature(s[1..]))[1..] == NormalizeSignature(s[1..]);
    }
  }

  /** A line without `", "` is stored as it is. */
  lemma {:induction false} NormalizeIdentity(s: string)
    requires !HasCommaSpace(s)
    ensures NormalizeSignature(s) == s
  {
    if |s| >= 2 {
      assert !(s[0] == ',' && s[1] == ' ');
      assert !HasCommaSpace(s[1..]) by {
        forall i | 0 <= i < |s[1..]| - 1
          ensures !(s[1..][i] == ',' && s[1..][i + 1] == ' ')
        {
          assert s[1..][i] == s[i + 1] && s[1..][i + 1] == s[i + 2];
        }
      }
      NormalizeIdentity(s[1..]);
    }
  }

  /** Does `s` contain a comma directly followed by two spaces? */
  predicate HasCommaTwoSpaces(s: string) {
    exists i :: 0 <= i < |s| - 2 && s[i] == ',' && s[i + 1] == ' ' && s[i + 2] == ' '
  }

  /** Prepending a character creates no `", "` unless that character is a
      comma and the rest starts with a space. */
  lemma ConsNoCommaSpace(c: char, t: string)
    requires !HasCommaSpace(t) && !(c == ',' && t != [] && t[0] == ' ')
    ensures !HasCommaSpace([c] + t)
  {
    var s := [c] + t;
    forall i | 0 <= i < |s| - 1
      ensures !(s[i] == ',' && s[i + 1] == ' ')
    {
      if i > 0 {
        assert s[i] == t[i - 1] && s[i + 1] == t[i];
      }
    }
  }

  /** Normalisation removes every `", "`: after it, no comma is followed by a
      space, provided no comma was followed by two spaces (the one pass of
      `Replace` leaves `", "` behind for `",  "`). */
  lemma {:induction false} NormalizeRemovesCommaSpace(s: string)
    requires !HasCommaTwoSpaces(s)
    ensures !HasCommaSpace(NormalizeSignature(s))
  {
    if |s| < 2 {
    } else if s[0] == ',' && s[1] == ' ' {
      var t := s[2..];
      assert !HasCommaTwoSpaces(t) by {
        forall i | 0 <= i < |t| - 2
          ensures !(t[i] == ',' && t[i + 1] == ' ' && t[i + 2] == ' ')
        {
          assert t[i] == s[i + 2] && t[i + 1] == s[i + 3] && t[i + 2] == s[i + 4];
        }
      }
      NormalizeRemovesCommaSpace(t);
      assert t != [] ==> t[0] == s[2];
      ConsNoCommaSpace(',', NormalizeSignature(t));
    } else {
      var t := s[1..];
      assert !HasCommaTwoSpaces(t) by {
        forall i | 0 <= i < |t| - 2
          ensures !(t[i] == ',' && t[i + 1] == ' ' && t[i + 2] == ' ')
        {
          assert t[i] == s[i + 1] && t[i + 1] == s[i + 2] && t[i + 2] == s[i + 3];
        }
      }
      NormalizeRemovesCommaSpace(t);
      assert t[0] == s[1];
      ConsNoCommaSpace(s[0], NormalizeSignature(t));
    }
  }

  /** `",  "` shows why the precondition is needed: one pass leaves `", "`. */
  lemma CommaTwoSpacesKeepsOne()
    ensures NormalizeSignature("a,  b") == "a, b"
  {
    assert "a,  b"[1..] == ",  b";
    assert ",  b"[2..] == " b";
    assert " b"[1..] == "b";
  }

  /** Parts joined with `", "`, the spacing the whitelist documents may use. */
  function JoinCommaSpace(parts: seq<string>): string {
    if parts == [] then ""
    else if |parts| == 1 then parts[0]
    else parts[0] + ", " + JoinCommaSpace(parts[1..])
  }

  /** A comma-free prefix passes through normalisation unchanged. */
  lemma {:induction false} NormalizeNoCommaPrefix(a: string, rest: string)
    requires ',' !in a
    ensures NormalizeSignature(a + rest) == a + NormalizeSignature(rest)
  {
    if a != [] {
      assert (a + rest)[0] == a[0];
      assert (a + rest)[1..] == a[1..] + rest;
      NormalizeNoCommaPrefix(a[1..], rest);
      if |a + rest| < 2 {
        assert a + rest == a && rest == [];
      }
    } else {
      assert a + rest == rest;
    }
  }

  /** A parameter list written with `", "` normalises to the comma-joined
      list that signatures are built with, whatever spaces the parts start
      with, as long as no part holds a comma. */
  lemma {:induction false} SpacedListNormalizes(parts: seq<string>)
    requires forall i :: 0 <= i < |parts| ==> ',' !in parts[i]
    ensures NormalizeSignature(JoinCommaSpace(parts)) == Signatures.JoinComma(parts)
  {
    if |parts| == 1 {
      NormalizeNoCommaPrefix(parts[0], []);
      assert parts[0] + [] == parts[0];
    } else if |parts| > 1 {
      var tail := JoinCommaSpace(parts[1..]);
      SpacedListNormalizes(parts[1..]);
      assert parts[0] + ", " + tail == parts[0] + (", " + tail);
      NormalizeNoCommaPrefix(parts[0], ", " + tail);
      assert (", " + tail)[2..] == tail;
    }
  }

  /** A signature is stored iff it is the normalised form of a non-blank line. */
  lemma {:induction false} LineEntriesMembership(lines: seq<string>, signature: string)
    ensures signature in LineEntries(lines) <==>
            exists i :: 0 <= i < |lines| && !IsBlank(lines[i]) && signature == NormalizeSignature(lines[i])
  {
    if lines != [] {
      var init := lines[..|lines| - 1];
      LineEntriesMembership(init, signature);
      assert forall i :: 0 <= i < |init| ==> lines[i] == init[i];
    }
  }

  /** The empty signature is never whitelisted, whatever the resource holds:
      blank lines are dropped and normalisation keeps a line non-empty. */
  lemma EmptyNeverWhitelisted(resource: Option<seq<string>>)
    ensures !IsWhitelisted(Entries(resource), "")
  {
    if resource.Some? {
      LineEntriesMembership(resource.value, "");
    }
  }

  /** A signature is whitelisted by a loaded resource exactly when it is the
      normalised form of one of its non-blank lines. */
  lemma WhitelistedIffLine(lines: seq<string>, signature: string)
    ensures IsWhitelisted(Entries(Some(lines)), signature) <==>
            exists i :: 0 <= i < |lines| && !IsBlank(lines[i]) && signature == NormalizeSignature(lines[i])
  {
    LineEntriesMembership(lines, signature);
  }

  /** `Count` is at most the number of lines. */
  lemma {:induction false} CountBound(lines: seq<string>)
    ensures Count(LineEntries(lines)) <= |lines|
  {
    if lines != [] {
      CountBound(lines[..|lines| - 1]);
    }
  }
}
