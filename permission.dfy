/** The permission page over the system settings table: boolean settings
  * are written as "1" or "0" and read back leniently, administrators are
  * always allowed, and the page's four checkboxes are saved one by one. */
module Permission {
  import opened Wrappers

  /** The texts `getSettingBool` reads as true. */
  predicate IsTrueText(v: string)
  {
    v == "1" || v == "true" || v == "True" || v == "TRUE"
  }

  /** `saveSettingBool`'s encoding, which reads back as the same value. */
  function BoolText(b: bool): (v: string)
    ensures IsTrueText(v) == b
    ensures v == "1" || v == "0"
  {
    if b then "1" else "0"
  }

  /** `getSetting`: a missing key reads as "". */
  function Setting(m: map<string, string>, key: string): (v: string)
    ensures key !in m ==> v == ""
    ensures key in m ==> v == m[key]
  {
    if key in m then m[key] else ""
  }

  /** `getSettingBool`: a missing setting is false. */
  function SettingBool(m: map<string, string>, key: string): (r: bool)
    ensures key !in m ==> !r
    ensures r <==> key in m && IsTrueText(m[key])
  {
    IsTrueText(Setting(m, key))
  }

  /** Writing a boolean and reading it back gives the boolean, and leaves
    * every other setting as it was. */
  lemma SaveThenRead(m: map<string, string>, key: string, b: bool, other: string)
    requires other != key
    ensures SettingBool(m[key := BoolText(b)], key) == b
    ensures Setting(m[key := BoolText(b)], other) == Setting(m, other)
  {
  }

  datatype User = User(id: int, username: string, roleCode: int)

  /** `CheckPermission`: role code 0 is the administrator. */
  function CheckPermission(m: map<string, string>, user: Option<User>, key: string): (r: bool)
    ensures user.Some? && user.value.roleCode == 0 ==> r
    ensures !(user.Some? && user.value.roleCode == 0) ==> (r <==> SettingBool(m, key))
  {
    if user.Some? && user.value.roleCode == 0 then true else SettingBool(m, key)
  }

  /** An HTML checkbox is on exactly when it is sent as "on"; a missing
    * form field reads as "". */
  function Checkbox(form: map<string, string>, name: string): (r: bool)
    ensures r <==> name in form && form[name] == "on"
  {
    (if name in form then form[name] else "") == "on"
  }

  const DeviceImport := "allow_device_audit_import"
  const DeviceDelete := "allow_device_audit_delete"
  const CheckpointImport := "allow_checkpoint_audit_import"
  const CheckpointDelete := "allow_checkpoint_audit_delete"

  /** The settings after the page saves one checkbox; a failed write is
    * dropped. */
  function SaveBox(m: map<string, string>, form: map<string, string>, key: string, fails: set<string>): map<string, string>
  {
    if key in fails then m else m[key := BoolText(Checkbox(form, key))]
  }

  /** The settings after the page saves its four checkboxes in order. */
  function SavePage(m: map<string, string>, form: map<string, string>, fails: set<string>): map<string, string>
  {
    var m1 := SaveBox(m, form, DeviceImport, fails);
    var m2 := SaveBox(m1, form, DeviceDelete, fails);
    var m3 := SaveBox(m2, form, CheckpointImport, fails);
    SaveBox(m3, form, CheckpointDelete, fails)
  }

  predicate PageKey(key: string)
  {
    key == DeviceImport || key == DeviceDelete || key == CheckpointImport || key == CheckpointDelete
  }

  /** One checkbox save changes its own key only. */
  lemma SaveBoxReads(m: map<string, string>, form: map<string, string>, k: string, fails: set<string>, key: string)
    ensures Setting(SaveBox(m, form, k, fails), key) ==
      if key == k && k !in fails then BoolText(Checkbox(form, k)) else Setting(m, key)
  {
  }

  /** The four keys are different settings. */
  lemma PageKeysDistinct()
    ensures DeviceImport != DeviceDelete && DeviceImport != CheckpointImport && DeviceImport != CheckpointDelete
    ensures DeviceDelete != CheckpointImport && DeviceDelete != CheckpointDelete
    ensures CheckpointImport != CheckpointDelete
  {
    assert DeviceImport[19] != DeviceDelete[19];
    assert CheckpointImport[23] != CheckpointDelete[23];
    assert |DeviceImport| != |CheckpointImport| && |DeviceImport| != |CheckpointDelete|;
    assert |DeviceDelete| != |CheckpointImport| && |DeviceDelete| != |CheckpointDelete|;
  }

  /** After a save every page permission whose write succeeded reads as its
    * checkbox; a failed write keeps the old value, and other settings are
    * untouched. */
  lemma SavePageReads(m: map<string, string>, form: map<string, string>, fails: set<string>, key: string)
    ensures PageKey(key) && key !in fails ==> SettingBool(SavePage(m, form, fails), key) == Checkbox(form, key)
    ensures PageKey(key) && key in fails ==> Setting(SavePage(m, form, fails), key) == Setting(m, key)
    ensures !PageKey(key) ==> Setting(SavePage(m, form, fails), key) == Setting(m, key)
  {
    PageKeysDistinct();
    var m1 := SaveBox(m, form, DeviceImport, fails);
    var m2 := SaveBox(m1, form, DeviceDelete, fails);
    var m3 := SaveBox(m2, form, CheckpointImport, fails);
    SaveBoxReads(m, form, DeviceImport, fails, key);
    SaveBoxReads(m1, form, DeviceDelete, fails, key);
    SaveBoxReads(m2, form, CheckpointImport, fails, key);
    SaveBoxReads(m3, form, CheckpointDelete, fails, key);
  }

  datatype SaveReply = LoginRedirect | Forbidden | Saved

  /** The settings table. */
  class SettingsTable {
    var values: map<string, string>

    constructor ()
      ensures values == map[]
    {
      values := map[];
    }

    function GetSettingBool(key: string): bool
      reads this
    {
      SettingBool(values, key)
    }

    function Allowed(user: Option<User>, key: string): bool
      reads this
    {
      CheckPermission(values, user, key)
    }

    /** `saveSetting`: an upsert; `fails` stands for a database error. */
    method SaveSetting(key: string, value: string, fails: bool) returns (r: Outcome)
      modifies this
      ensures fails ==> r.Failure? && values == old(values)
      ensures !fails ==> r == Success && values == old(values)[key := value]
    {
      if fails {
        r := Failure("database error");
      } else {
        values := values[key := value];
        r := Success;
      }
    }

    /** `saveSettingBool`: after a successful save the setting reads back
      * as the value saved. */
    method SaveSettingBool(key: string, b: bool, fails: bool) returns (r: Outcome)
      modifies this
      ensures values == if fails then old(values) else old(values)[key := BoolText(b)]
      ensures r.Success? <==> !fails
      ensures r.Success? ==> GetSettingBool(key) == b
    {
      var text := if b then "1" else "0";
      r := SaveSetting(key, text, fails);
    }

    /** The POST of `SaveHandler`: only a logged-in administrator may save,
      * and the result of each write is ignored. */
    method SaveHandler(user: Option<User>, form: map<string, string>, fails: set<string>) returns (r: SaveReply)
      modifies this
      ensures user.None? ==> r == LoginRedirect && values == old(values)
      ensures user.Some? && user.value.roleCode != 0 ==> r == Forbidden && values == old(values)
      ensures user.Some? && user.value.roleCode == 0 ==> r == Saved && values == SavePage(old(values), form, fails)
    {
      if user.None? {
        return LoginRedirect;
      }
      if user.value.roleCode != 0 {
        return Forbidden;
      }
      var deviceImport := Checkbox(form, DeviceImport);
      var deviceDelete := Checkbox(form, DeviceDelete);
      var checkpointImport := Checkbox(form, CheckpointImport);
      var checkpointDelete := Checkbox(form, CheckpointDelete);
      var _ := SaveSettingBool(DeviceImport, deviceImport, DeviceImport in fails);
      var _ := SaveSettingBool(DeviceDelete, deviceDelete, DeviceDelete in fails);
      var _ := SaveSettingBool(CheckpointImport, checkpointImport, CheckpointImport in fails);
      var _ := SaveSettingBool(CheckpointDelete, checkpointDelete, CheckpointDelete in fails);
      r := Saved;
    }
  }
}
