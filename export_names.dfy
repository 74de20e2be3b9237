/**
 * The caption sanitiser `saveDocumentAsApp` applies before it uses a widget
 * caption as part of a Python identifier in the exported application: spaces
 * become underscores and the characters ( ) . - + are dropped, one `replace`
 * call after the other.
 */
module ExportNames {

  /** `s.replace(c, d)` for one-character arguments. */
  function ReplaceChar(s: string, c: char, d: char): (r: string)
    ensures |r| == |s|
    ensures forall k :: 0 <= k < |s| ==> r[k] == (if s[k] == c then d else s[k])
  {
    if s == [] then [] else [if s[0] == c then d else s[0]] + ReplaceChar(s[1..], c, d)
  }

  /** `s.replace(c, "")`. */
  function DeleteChar(s: string, c: char): (r: string)
    ensures |r| <= |s|
    ensures c !in r
    ensures forall x :: x in r <==> x in s && x != c
  {
    if s == [] then [] else (if s[0] == c then [] else [s[0]]) + DeleteChar(s[1..], c)
  }

  /** The characters the sanitiser removes or rewrites. */
  predicate Unsafe(x: char)
  {
    x == ' ' || x == '(' || x == ')' || x == '.' || x == '-' || x == '+'
  }

  /** The replace chain of orngDoc.py, in its order. */
  function Sanitize(caption: string): (name: string)
    ensures |name| <= |caption|
  {
    DeleteChar(DeleteChar(DeleteChar(DeleteChar(DeleteChar(
      ReplaceChar(caption, ' ', '_'), '('), ')'), '.'), '-'), '+')
  }

  lemma {:induction false} ReplaceCharAbsent(s: string, c: char, d: char)
    requires c !in s
    ensures ReplaceChar(s, c, d) == s
  {
    if s != [] {
      ReplaceCharAbsent(s[1..], c, d);
    }
  }

  lemma {:induction false} DeleteCharAbsent(s: string, c: char)
    requires c !in s
    ensures DeleteChar(s, c) == s
  {
    if s != [] {
      assert s == [s[0]] + s[1..];
      DeleteCharAbsent(s[1..], c);
    }
  }

  /**
   * The sanitised name holds none of the six characters, keeps every other
   * character of the caption, and turns each space into an underscore.
   */
  lemma SanitizeSafe(caption: string)
    ensures forall x :: x in Sanitize(caption) ==> !Unsafe(x)
    ensures forall x :: x in caption && !Unsafe(x) ==> x in Sanitize(caption)
    ensures ' ' in caption ==> '_' in Sanitize(caption)
  {
    var r := ReplaceChar(caption, ' ', '_');
    forall x | x in r
      ensures x != ' '
      ensures x in caption || x == '_'
    {
      var k :| 0 <= k < |r| && r[k] == x;
    }
    forall x | x in caption && x != ' '
      ensures x in r
    {
      var k :| 0 <= k < |caption| && caption[k] == x;
      assert r[k] == x;
    }
    if ' ' in caption {
      var k :| 0 <= k < |caption| && caption[k] == ' ';
      assert r[k] == '_';
    }
  }

  /** What the sanitiser makes of one character of the caption. */
  function SanitizeChar(x: char): string
  {
    if x == ' ' then "_" else if Unsafe(x) then "" else [x]
  }

  /** The sanitiser written character by character, as a reference definition. */
  function SanitizeEach(caption: string): string
  {
    if caption == [] then "" else SanitizeChar(caption[0]) + SanitizeEach(caption[1..])
  }

  /** Replacing a character distributes over concatenation. */
  lemma {:induction false} ReplaceCharSplit(a: string, b: string, c: char, d: char)
    ensures ReplaceChar(a + b, c, d) == ReplaceChar(a, c, d) + ReplaceChar(b, c, d)
  {
    if a == [] {
      assert a + b == b;
    } else {
      assert (a + b)[0] == a[0] && (a + b)[1..] == a[1..] + b;
      ReplaceCharSplit(a[1..], b, c, d);
    }
  }

  /** Deletion keeps every other character as often as the input has it, and none of `c`. */
  lemma {:induction false} DeleteCharCounts(s: string, c: char)
    ensures multiset(DeleteChar(s, c)) == multiset(s)[c := 0]
  {
    if s != [] {
      assert s == [s[0]] + s[1..];
      DeleteCharCounts(s[1..], c);
    }
  }

  /** Deleting a character distributes over concatenation. */
  lemma {:induction false} DeleteCharSplit(a: string, b: string, c: char)
    ensures DeleteChar(a + b, c) == DeleteChar(a, c) + DeleteChar(b, c)
  {
    if a == [] {
      assert a + b == b;
    } else {
      assert (a + b)[0] == a[0] && (a + b)[1..] == a[1..] + b;
      DeleteCharSplit(a[1..], b, c);
    }
  }

  /** The replace chain distributes over concatenation. */
  lemma SanitizeSplit(a: string, b: string)
    ensures Sanitize(a + b) == Sanitize(a) + Sanitize(b)
  {
    ReplaceCharSplit(a, b, ' ', '_');
    var a0, b0 := ReplaceChar(a, ' ', '_'), ReplaceChar(b, ' ', '_');
    DeleteCharSplit(a0, b0, '(');
    var a1, b1 := DeleteChar(a0, '('), DeleteChar(b0, '(');
    DeleteCharSplit(a1, b1, ')');
    var a2, b2 := DeleteChar(a1, ')'), DeleteChar(b1, ')');
    DeleteCharSplit(a2, b2, '.');
    var a3, b3 := DeleteChar(a2, '.'), DeleteChar(b2, '.');
    DeleteCharSplit(a3, b3, '-');
    var a4, b4 := DeleteChar(a3, '-'), DeleteChar(b3, '-');
    DeleteCharSplit(a4, b4, '+');
  }

  /** A single space becomes "_", one of ( ) . - + becomes "", any other character stays. */
  lemma SanitizeOne(x: char)
    ensures Sanitize([x]) == SanitizeChar(x)
  {
    var r := ReplaceChar([x], ' ', '_');
    assert r == [if x == ' ' then '_' else x];
    assert DeleteChar([], '(') == [];
  }

  /**
   * The replace chain treats each character on its own: the sanitised name
   * is the caption with every space turned into "_" and every ( ) . - +
   * dropped, all other characters kept in order.
   */
  lemma {:induction false} SanitizeByCharacter(caption: string)
    ensures Sanitize(caption) == SanitizeEach(caption)
  {
    if caption == [] {
      assert ReplaceChar(caption, ' ', '_') == [];
    } else {
      assert caption == [caption[0]] + caption[1..];
      SanitizeSplit([caption[0]], caption[1..]);
      SanitizeOne(caption[0]);
      SanitizeByCharacter(caption[1..]);
    }
  }

  /** Sanitising a second time changes nothing. */
  lemma SanitizeIdempotent(caption: string)
    ensures Sanitize(Sanitize(caption)) == Sanitize(caption)
  {
    var s := Sanitize(caption);
    SanitizeSafe(caption);
    ReplaceCharAbsent(s, ' ', '_');
    DeleteCharAbsent(s, '(');
    DeleteCharAbsent(s, ')');
    DeleteCharAbsent(s, '.');
    DeleteCharAbsent(s, '-');
    DeleteCharAbsent(s, '+');
  }
}
