/**
 * The profile page's edit form: copying the stored profile into the form,
 * and adding and removing interests. The form holds text as the inputs
 * show it, so the age is its decimal string.
 */
module ProfileForm {
  import opened Wrappers
  import Schema

  datatype FormData = FormData(bio: string, age: string, interests: seq<string>, photos: seq<string>)

  const EmptyForm := FormData("", "", [], [])

  predicate NoDuplicates(xs: seq<string>) {
    forall i, j :: 0 <= i < j < |xs| ==> xs[i] != xs[j]
  }

  // ===================== interests =====================

  /** `handleInterestAdd`: append a non-empty interest that is not yet listed. */
  function AddInterest(f: FormData, interest: string): (r: FormData)
    ensures r.bio == f.bio && r.age == f.age && r.photos == f.photos
    ensures interest == "" || interest in f.interests ==> r == f
    ensures interest != "" && interest !in f.interests ==> r.interests == f.interests + [interest]
    ensures NoDuplicates(f.interests) ==> NoDuplicates(r.interests)
    ensures interest != "" ==> interest in r.interests
  {
    if interest != "" && interest !in f.interests then f.(interests := f.interests + [interest]) else f
  }

  /** Every element of `xs` except the occurrences of `x`, in their order. */
  function RemoveAll(xs: seq<string>, x: string): (r: seq<string>)
    ensures x !in r
    ensures forall y :: y in r <==> y in xs && y != x
    ensures |r| <= |xs|
  {
    if xs == [] then []
    else if xs[0] == x then RemoveAll(xs[1..], x)
    else [xs[0]] + RemoveAll(xs[1..], x)
  }

  /** Removal works piece by piece, so the survivors keep their order. */
  lemma {:induction false} RemoveAllConcat(a: seq<string>, b: seq<string>, x: string)
    ensures RemoveAll(a + b, x) == RemoveAll(a, x) + RemoveAll(b, x)
  {
    if a != [] {
      assert (a + b)[1..] == a[1..] + b;
      RemoveAllConcat(a[1..], b, x);
    } else {
      assert a + b == b;
    }
  }

  /** Removing an interest that is not listed changes nothing. */
  lemma {:induction false} RemoveAbsent(xs: seq<string>, x: string)
    requires x !in xs
    ensures RemoveAll(xs, x) == xs
  {
    if xs != [] {
      assert xs[0] in xs;
      RemoveAbsent(xs[1..], x);
      assert xs == [xs[0]] + xs[1..];
    }
  }

  /** `handleInterestRemove`: drop every occurrence of the interest. */
  function RemoveInterest(f: FormData, interest: string): (r: FormData)
    ensures r.bio == f.bio && r.age == f.age && r.photos == f.photos
    ensures interest !in r.interests
    ensures forall y :: y in r.interests <==> y in f.interests && y != interest
  {
    f.(interests := RemoveAll(f.interests, interest))
  }

  /** Adding a fresh interest and then removing it gives back the form as it was. */
  lemma AddThenRemove(f: FormData, interest: string)
    requires interest !in f.interests
    ensures RemoveInterest(AddInterest(f, interest), interest) == f
  {
    RemoveAbsent(f.interests, interest);
    if interest != "" {
      RemoveAllConcat(f.interests, [interest], interest);
    }
  }

  // ===================== number formatting =====================

  function DigitChar(d: nat): (c: char)
    requires d < 10
    ensures '0' <= c <= '9' && c as int - '0' as int == d
  {
    (48 + d) as char
  }

  predicate IsDigits(s: string) {
    forall i :: 0 <= i < |s| ==> '0' <= s[i] <= '9'
  }

  /** The decimal digits of `n`, without leading zeros. */
  function NatString(n: nat): (r: string)
    ensures r != [] && IsDigits(r)
    decreases n
  {
    if n < 10 then [DigitChar(n)] else NatString(n / 10) + [DigitChar(n % 10)]
  }

  /** `n.toString()` for an integer. */
  function DecimalString(n: int): (r: string)
    ensures r != []
  {
    if n < 0 then "-" + NatString(-n) else NatString(n)
  }

  /** The number a string of decimal digits denotes. */
  function DigitsValue(s: string): nat
    requires IsDigits(s)
    decreases |s|
  {
    if s == [] then 0 else DigitsValue(s[..|s| - 1]) * 10 + (s[|s| - 1] as int - '0' as int)
  }

  /** The number an optionally signed decimal string denotes. */
  function DecimalValue(s: string): int
    requires s != [] && s[0] == '-' ==> IsDigits(s[1..])
    requires s == [] || s[0] != '-' ==> IsDigits(s)
  {
    if s != [] && s[0] == '-' then -(DigitsValue(s[1..]) as int) else DigitsValue(s)
  }

  lemma {:induction false} NatStringValue(n: nat)
    ensures DigitsValue(NatString(n)) == n
    decreases n
  {
    if n >= 10 {
      NatStringValue(n / 10);
      var s := NatString(n);
      assert s[..|s| - 1] == NatString(n / 10);
    }
  }

  /** The age shown in the form reads back as the stored age. */
  lemma DecimalStringValue(n: int)
    ensures var s := DecimalString(n);
      && (s[0] == '-' ==> IsDigits(s[1..]))
      && (s[0] != '-' ==> IsDigits(s))
      && DecimalValue(s) == n
  {
    if n < 0 {
      NatStringValue(-n);
      assert DecimalString(n)[1..] == NatString(-n);
    } else {
      NatStringValue(n);
    }
  }

  // ===================== the page =====================

  /**
   * The form `handleEdit` fills from a stored profile: missing text becomes
   * "", a missing age "", missing lists [].
   */
  function FormFor(p: Schema.Profile): (r: FormData)
    ensures r.bio == p.bio.GetOr("")
    ensures p.age.None? ==> r.age == ""
    ensures p.age.Some? ==> r.age != "" && r.age == DecimalString(p.age.value)
    ensures r.interests == p.interests.GetOr([]) && r.photos == p.photos.GetOr([])
  {
    FormData(p.bio.GetOr(""),
             if p.age.Some? then DecimalString(p.age.value) else "",
             p.interests.GetOr([]),
             p.photos.GetOr([]))
  }

  /** The page's editing flag and form state. */
  class ProfilePage {
    var isEditing: bool
    var formData: FormData

    constructor ()
      ensures !isEditing && formData == EmptyForm
    {
      isEditing := false;
      formData := EmptyForm;
    }

    /** `handleEdit`: fill the form from the profile when there is one, and start editing. */
    method HandleEdit(profile: Option<Schema.Profile>)
      modifies this
      ensures isEditing
      ensures profile.Some? ==> formData == FormFor(profile.value)
      ensures profile.None? ==> formData == old(formData)
    {
      if profile.Some? {
        formData := FormFor(profile.value);
      }
      isEditing := true;
    }

    method HandleInterestAdd(interest: string)
      modifies this
      ensures formData == AddInterest(old(formData), interest) && isEditing == old(isEditing)
    {
      if interest != "" && interest !in formData.interests {
        formData := formData.(interests := formData.interests + [interest]);
      }
    }

    method HandleInterestRemove(interest: string)
      modifies this
      ensures formData == RemoveInterest(old(formData), interest) && isEditing == old(isEditing)
    {
      formData := formData.(interests := RemoveAll(formData.interests, interest));
    }
  }

  /**
   * Open the editor on a profile, add each interest, remove one: the form
   * then lists exactly the profile's interests and the non-empty added
   * names, except the removed one.
   */
  method EditInterests(p: Schema.Profile, added: seq<string>, removed: string) returns (f: FormData)
    ensures forall y :: y in f.interests <==> y != removed && (y in p.interests.GetOr([]) || (y in added && y != ""))
    ensures f.bio == p.bio.GetOr("") && f.photos == p.photos.GetOr([])
  {
    var page := new ProfilePage();
    page.HandleEdit(Some(p));
    var i := 0;
    while i < |added|
      invariant 0 <= i <= |added|
      invariant page.formData.bio == p.bio.GetOr("") && page.formData.photos == p.photos.GetOr([])
      invariant forall y :: y in page.formData.interests <==>
        y in p.interests.GetOr([]) || (y in added[..i] && y != "")
    {
      assert added[..i + 1] == added[..i] + [added[i]];
      page.HandleInterestAdd(added[i]);
      i := i + 1;
    }
    assert added[..i] == added;
    page.HandleInterestRemove(removed);
    f := page.formData;
  }
}
