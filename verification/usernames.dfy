/**
  Usernames of admin-provisioned accounts: the entity's name lowercased, with
  every ASCII space removed, followed by a suffix naming the role. Lowercasing
  is modelled over ASCII letters only.
*/
module Usernames {

  const CompanySuffix: string := "_company"
  const VendorSuffix: string := "_vendor"

  predicate IsUpper(c: char) {
    'A' <= c <= 'Z'
  }

  /** The ASCII capitals and, position by position, their lowercase letters. */
  const Uppers: string := "ABCDEFGHIJKLMNOPQRSTUVWXYZ"
  const Lowers: string := "abcdefghijklmnopqrstuvwxyz"

  /** ASCII lowercasing of one character; every other character is left alone. */
  function LowerChar(c: char): (d: char)
    ensures !IsUpper(d)
    ensures !IsUpper(c) ==> d == c
    ensures d == ' ' <==> c == ' '
    ensures IsUpper(c) ==> 'a' <= d <= 'z' && d as int - 'a' as int == c as int - 'A' as int
  {
    if IsUpper(c) then (c as int - 'A' as int + 'a' as int) as char else c
  }

  /** Each capital lowercases to the letter at the same place in the alphabet table. */
  lemma LowerCharTable()
    ensures forall i :: 0 <= i < |Uppers| ==> LowerChar(Uppers[i]) == Lowers[i]
  {
  }

  /** The table lists every capital, so it fixes the case mapping completely. */
  lemma LowerCharCoversUppers(c: char)
    requires IsUpper(c)
    ensures exists i :: 0 <= i < |Uppers| && Uppers[i] == c && LowerChar(c) == Lowers[i]
  {
    var i := c as int - 'A' as int;
    assert Uppers[i] == c;
    LowerCharTable();
  }

  /** Lowercasing of a whole string, character by character. */
  function Lower(s: string): (r: string)
    ensures |r| == |s|
  {
    seq(|s|, i requires 0 <= i < |s| => LowerChar(s[i]))
  }

  /** The string with every ' ' taken out and all other characters kept in order. */
  function RemoveSpaces(s: string): (r: string)
    ensures ' ' !in r
    ensures |r| <= |s|
    ensures forall c :: c in r ==> c in s
  {
    if |s| == 0 then []
    else (if s[0] == ' ' then [] else [s[0]]) + RemoveSpaces(s[1..])
  }

  /** The normalisation applied to a name before a suffix is added: lowercase, then strip spaces. */
  function Normalize(name: string): (r: string)
    ensures ' ' !in r
    ensures forall i :: 0 <= i < |r| ==> !IsUpper(r[i])
    ensures |r| <= |name|
  {
    assert forall c :: c in Lower(name) ==> !IsUpper(c);
    RemoveSpaces(Lower(name))
  }

  /** The username given to a new company's account. */
  function CompanyUsername(name: string): (u: string)
    ensures ' ' !in u
    ensures forall i :: 0 <= i < |u| ==> !IsUpper(u[i])
  {
    Normalize(name) + CompanySuffix
  }

  /** The username given to a new vendor's account. */
  function VendorUsername(name: string): (u: string)
    ensures ' ' !in u
    ensures forall i :: 0 <= i < |u| ==> !IsUpper(u[i])
  {
    Normalize(name) + VendorSuffix
  }

  // ---------------------------------------------------------------------------
  // Normalisation works character by character.

  lemma {:induction false} RemoveSpacesAppend(a: string, b: string)
    ensures RemoveSpaces(a + b) == RemoveSpaces(a) + RemoveSpaces(b)
    decreases |a|
  {
    if |a| > 0 {
      assert (a + b)[1..] == a[1..] + b;
      RemoveSpacesAppend(a[1..], b);
    } else {
      assert a + b == b;
    }
  }

  /** Normalising a concatenation normalises each part. */
  lemma NormalizeAppend(a: string, b: string)
    ensures Normalize(a + b) == Normalize(a) + Normalize(b)
  {
    assert Lower(a + b) == Lower(a) + Lower(b);
    RemoveSpacesAppend(Lower(a), Lower(b));
  }

  /** Removing spaces from a string that has none changes nothing. */
  lemma {:induction false} RemoveSpacesNoop(s: string)
    requires ' ' !in s
    ensures RemoveSpaces(s) == s
    decreases |s|
  {
    if |s| > 0 {
      assert s == [s[0]] + s[1..];
      RemoveSpacesNoop(s[1..]);
    }
  }

  /** A string with no spaces and no uppercase letters is its own normal form. */
  lemma NormalFormFixed(s: string)
    requires ' ' !in s
    requires forall i :: 0 <= i < |s| ==> !IsUpper(s[i])
    ensures Normalize(s) == s
  {
    assert forall i :: 0 <= i < |s| ==> Lower(s)[i] == s[i];
    assert Lower(s) == s;
    RemoveSpacesNoop(s);
  }

  /** Normalising twice is the same as normalising once. */
  lemma NormalizeIdempotent(name: string)
    ensures Normalize(Normalize(name)) == Normalize(name)
  {
    NormalFormFixed(Normalize(name));
  }

  /** Inserting a space anywhere in a name does not change its normal form. */
  lemma NormalizeIgnoresSpace(a: string, b: string)
    ensures Normalize(a + " " + b) == Normalize(a + b)
  {
    NormalizeAppend(a + " ", b);
    NormalizeAppend(a, " ");
    NormalizeAppend(a, b);
    assert Lower(" ") == " ";
  }

  /** Changing the case of one ASCII letter in a name does not change its normal form. */
  lemma NormalizeIgnoresCase(a: string, b: string, c: char)
    requires IsUpper(c)
    ensures Normalize(a + [c] + b) == Normalize(a + [LowerChar(c)] + b)
  {
    NormalizeAppend(a + [c], b);
    NormalizeAppend(a, [c]);
    NormalizeAppend(a + [LowerChar(c)], b);
    NormalizeAppend(a, [LowerChar(c)]);
    assert Lower([c]) == [LowerChar(c)] == Lower([LowerChar(c)]);
  }

  // ---------------------------------------------------------------------------
  // Collisions between derived usernames.

  /** Two company names derive the same username exactly when their normal forms agree. */
  lemma CompanyUsernamesCollideIff(a: string, b: string)
    ensures CompanyUsername(a) == CompanyUsername(b) <==> Normalize(a) == Normalize(b)
  {
    if CompanyUsername(a) == CompanyUsername(b) {
      var u := CompanyUsername(a);
      assert Normalize(a) == u[..|u| - |CompanySuffix|] == Normalize(b);
    }
  }

  /** Two vendor names derive the same username exactly when their normal forms agree. */
  lemma VendorUsernamesCollideIff(a: string, b: string)
    ensures VendorUsername(a) == VendorUsername(b) <==> Normalize(a) == Normalize(b)
  {
    if VendorUsername(a) == VendorUsername(b) {
      var u := VendorUsername(a);
      assert Normalize(a) == u[..|u| - |VendorSuffix|] == Normalize(b);
    }
  }

  /** A company account and a vendor account never receive the same username, and neither is "admin". */
  lemma DerivedUsernamesDistinct(a: string, b: string)
    ensures CompanyUsername(a) != VendorUsername(b)
    ensures CompanyUsername(a) != "admin" && VendorUsername(b) != "admin"
  {
    var u := CompanyUsername(a);
    var w := VendorUsername(b);
    assert u[|u| - 1] == 'y';
    assert w[|w| - 1] == 'r';
  }

  /** "A b" and "AB" are different company names with one derived username, "ab_company". */
  lemma ExampleCollision()
    ensures CompanyUsername("A b") == CompanyUsername("AB") == "ab_company"
  {
    ExampleNormalForms();
  }

  /** Both example names normalise to "ab". */
  lemma ExampleNormalForms()
    ensures Normalize("A b") == "ab" && Normalize("AB") == "ab"
  {
    var l1 := Lower("A b");
    assert l1[0] == 'a' && l1[1] == ' ' && l1[2] == 'b';
    var l2 := Lower("AB");
    assert l2[0] == 'a' && l2[1] == 'b';
    ExampleRemoveSpaces();
  }

  /** Taking the space out of "a b" gives "ab", which has none to take out. */
  lemma ExampleRemoveSpaces()
    ensures RemoveSpaces("a b") == "ab" == RemoveSpaces("ab")
  {
    assert "a b"[1..] == " b" && " b"[1..] == "b" && "b"[1..] == [];
    assert "ab"[1..] == "b";
    assert RemoveSpaces("b") == "b";
  }
}
