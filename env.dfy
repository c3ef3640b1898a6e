/** Reading a boolean switch from a build-time environment variable. */
module Env {
  import opened Base
  import opened Text

  /** The spellings that count as "on", compared after lower-casing. */
  const TruthyValues: set<string> := {"1", "true", "yes", "on"}

  /** `readBooleanEnv(value)`: absent or empty is false; otherwise the lower-cased value must be truthy. */
  function ReadBooleanEnv(value: Option<string>): (b: bool)
    ensures value.None? || value == Some("") ==> !b
    ensures value.Some? ==> (b <==> ToLower(value.value) in TruthyValues)
  {
    if value.None? || value.value == "" then false else ToLower(value.value) in TruthyValues
  }

  /** The match ignores case: lowering the value first never changes the answer. */
  lemma CaseInsensitive(s: string)
    ensures ReadBooleanEnv(Some(ToLower(s))) == ReadBooleanEnv(Some(s))
  {
    ToLowerIdempotent(s);
  }

  /** A true value is short and free of whitespace; so nothing is trimmed before matching. */
  lemma {:induction false} TrueMeansNoWhitespace(s: string)
    requires ReadBooleanEnv(Some(s))
    ensures 1 <= |s| <= 4
    ensures forall i :: 0 <= i < |s| ==> !IsWhitespace(s[i])
  {
    var l := ToLower(s);
    assert l in TruthyValues;
    forall i | 0 <= i < |s|
      ensures !IsWhitespace(s[i])
    {
      assert l[i] == LowerChar(s[i]);
      assert forall t | t in TruthyValues :: forall j :: 0 <= j < |t| ==> !IsWhitespace(t[j]);
    }
  }

  /** What the variable is commonly set to, and how it reads. */
  lemma Examples()
    ensures ReadBooleanEnv(Some("TRUE")) && ReadBooleanEnv(Some("On")) && ReadBooleanEnv(Some("1"))
    ensures !ReadBooleanEnv(Some(" true")) && !ReadBooleanEnv(Some("true "))
    ensures !ReadBooleanEnv(Some("0")) && !ReadBooleanEnv(Some("false")) && !ReadBooleanEnv(None)
  {
    assert ToLower("TRUE") == "true";
    assert ToLower("On") == "on";
    assert ToLower("1") == "1";
    assert ToLower(" true") == " true";
    assert ToLower("true ") == "true ";
    assert ToLower("0") == "0";
    assert ToLower("false") == "false";
  }
}
