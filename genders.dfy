/** The gender values a user record may carry, and the check applied to untyped input. */
module Genders {
  import opened Json

  /** The strings of the `Gender` union type. */
  predicate IsGender(s: string) {
    s == "female" || s == "male" || s == "other"
  }

  /** The `Gender` union type. */
  type Gender = s: string | IsGender(s) witness "female"

  /** `availableGenders`, in its declared order. */
  const AvailableGenders: seq<Gender> := ["female", "male", "other"]

  /** `validateGender(value)`: `availableGenders.includes(value)`, which only a string can pass. */
  function ValidateGender(value: Json): (r: bool)
    ensures r ==> value.JStr?
    ensures value.JStr? ==> (r <==> IsGender(value.s))
  {
    value.JStr? && value.s in AvailableGenders
  }

  /** The three listed names are accepted. */
  lemma ListedGendersAccepted()
    ensures ValidateGender(JStr("female")) && ValidateGender(JStr("male")) && ValidateGender(JStr("other"))
  {
  }

  /** Exactly the three names are accepted: any other string, and any value that is not a string, is refused. */
  lemma ValidateGenderExactly(value: Json)
    ensures ValidateGender(value) <==> value == JStr("female") || value == JStr("male") || value == JStr("other")
  {
  }

  /** The list agrees with the type: every value of the type is listed. */
  lemma EveryGenderListed(g: Gender)
    ensures g in AvailableGenders
  {
  }

  /** `validateGender` accepts a string exactly when it is a value of the `Gender` type. */
  lemma ValidateGenderMatchesType(s: string)
    ensures ValidateGender(JStr(s)) <==> IsGender(s)
  {
  }

  /** The list has three entries and no repeats. */
  lemma AvailableGendersDistinct()
    ensures |AvailableGenders| == 3
    ensures forall i, j :: 0 <= i < j < |AvailableGenders| ==> AvailableGenders[i] != AvailableGenders[j]
  {
  }
}
