/** The `anonymous_staff` setting, which decides whether a staff reply is
    signed with the staff member's mention or sent as "Staff reply: ".
    Settings are read by Python's `configparser`, which hands every value
    back as a string. */
module Config {
  import opened Builtins

  /** As written: `if config['Main']['anonymous_staff']:` tests the string
      itself, and every non-empty Python string is true. */
  function StaffAnonymousAsWritten(setting: string): (anonymous: bool)
    ensures anonymous <==> |setting| > 0
  {
    setting != ""
  }

  /** ASCII lower case, which is what Python's `str.lower()` does to the
      letters of configparser's boolean spellings. */
  function Lower(s: string): (r: string)
    ensures |r| == |s|
    ensures forall i :: 0 <= i < |s| ==> r[i] == LowerChar(s[i])
  {
    if s == [] then [] else [LowerChar(s[0])] + Lower(s[1..])
  }

  function LowerChar(c: char): char {
    if 'A' <= c <= 'Z' then (c as int + 32) as char else c
  }

  /** `ConfigParser.getboolean`: the case-insensitive spellings it accepts,
      and `None` for the `ValueError` it raises on any other value. */
  function ReadBoolean(setting: string): (b: Option<bool>)
    ensures b == Some(true) <==> Lower(setting) in {"1", "yes", "true", "on"}
    ensures b == Some(false) <==> Lower(setting) in {"0", "no", "false", "off"}
  {
    var v := Lower(setting);
    if v in {"1", "yes", "true", "on"} then Some(true)
    else if v in {"0", "no", "false", "off"} then Some(false)
    else None
  }

  /** Corrected: the setting read as a boolean, so that replies are
      anonymous only when it says so. A value `getboolean` would refuse
      counts as not anonymous here. */
  function StaffAnonymous(setting: string): (anonymous: bool)
    ensures anonymous <==> Lower(setting) in {"1", "yes", "true", "on"}
    ensures anonymous ==> StaffAnonymousAsWritten(setting)
    ensures Lower(setting) in {"0", "no", "false", "off"} ==> !anonymous
  {
    ReadBoolean(setting) == Some(true)
  }

  /** The discrepancy: `anonymous_staff = False` (or `no`, `0`, `off`) still
      hides the staff member's name as written, and does not once corrected. */
  lemma FalseSettingStillAnonymous()
    ensures StaffAnonymousAsWritten("False")
    ensures !StaffAnonymous("False")
  {
    assert Lower("False") == "false";
  }

  /** For every false spelling of the setting, in any case, replies are
      anonymous as written and signed once corrected. */
  lemma FalseSpellingsStillAnonymous(setting: string)
    requires ReadBoolean(setting) == Some(false)
    ensures StaffAnonymousAsWritten(setting) && !StaffAnonymous(setting)
  {
    assert |Lower(setting)| > 0;
  }
}
