/**
 The Secret merge patches of an admin-password reset (src/admin_reset.rs), applied
 the way the API server applies them: the merge of section 2 of RFC 7396, then
 `stringData` folded into `data`. Base64 is not modelled, so `data` holds text.
 */
module SecretPatch {

  const PREVIOUS_PASSWORD_KEY: string := "previous-password"
  const USERNAME: string := "username"
  const PASSWORD: string := "password"
  const DATA: string := "data"
  const STRING_DATA: string := "stringData"

  datatype Json = Null | Str(text: string) | Obj(fields: map<string, Json>)

  /** MergePatch of section 2 of RFC 7396. */
  function MergePatch(target: Json, patch: Json): Json
    decreases patch
  {
    if !patch.Obj? then patch
    else
      var base := if target.Obj? then target.fields else map[];
      Obj(map k | k in base.Keys + patch.fields.Keys && !(k in patch.fields && patch.fields[k].Null?) ::
            if k in patch.fields
            then MergePatch(if k in base then base[k] else Null, patch.fields[k])
            else base[k])
  }

  /** A Secret's `data`. */
  type Data = map<string, string>

  function Texts(d: Data): Json {
    Obj(map k | k in d :: Str(d[k]))
  }

  function SecretObject(d: Data): Json {
    Obj(map["data" := Texts(d)])
  }

  function Strings(j: Json): Data {
    if j.Obj? then map k | k in j.fields && j.fields[k].Str? :: j.fields[k].text else map[]
  }

  function Field(j: Json, k: string): Json {
    if j.Obj? && k in j.fields then j.fields[k] else Null
  }

  /** What the API server stores: `stringData` wins over `data` and is not kept. */
  function Fold(j: Json): Data {
    Strings(Field(j, "data")) + Strings(Field(j, "stringData"))
  }

  function Patched(d: Data, patch: Json): Data {
    Fold(MergePatch(SecretObject(d), patch))
  }

  /** `start_patch`. */
  function StartPatch(user: string, newPassword: string, previous: string): Json {
    Obj(map[STRING_DATA := Texts(map[
        USERNAME := user,
        PASSWORD := newPassword,
        PREVIOUS_PASSWORD_KEY := previous])])
  }

  /** `drop_kept_patch`. */
  function DropKeptPatch(): Json {
    Obj(map[DATA := Obj(map[PREVIOUS_PASSWORD_KEY := Null])])
  }

  /** `restore_patch`. */
  function RestorePatch(previous: string, dropKept: bool): Json {
    var patch := Obj(map[STRING_DATA := Texts(map[PASSWORD := previous])]);
    if dropKept then Obj(patch.fields[DATA := Field(DropKeptPatch(), DATA)]) else patch
  }

  // ── what the patches do to a Secret ─────────────────────────────────

  lemma StartPatchEffect(d: Data, user: string, newPassword: string, previous: string)
    ensures Patched(d, StartPatch(user, newPassword, previous))
         == d[USERNAME := user][PASSWORD := newPassword][PREVIOUS_PASSWORD_KEY := previous]
  {
    PatchTexts(d, map[USERNAME := user, PASSWORD := newPassword, PREVIOUS_PASSWORD_KEY := previous]);
    KeysDistinct();
  }

  lemma KeysDistinct()
    ensures USERNAME != PASSWORD && USERNAME != PREVIOUS_PASSWORD_KEY && PASSWORD != PREVIOUS_PASSWORD_KEY
  {
    assert USERNAME[0] != PASSWORD[0];
    assert |USERNAME| != |PREVIOUS_PASSWORD_KEY| && |PASSWORD| != |PREVIOUS_PASSWORD_KEY|;
  }

  /** A patch of `stringData` alone overwrites those keys and keeps the rest. */
  lemma PatchTexts(d: Data, sd: Data)
    ensures Patched(d, Obj(map[STRING_DATA := Texts(sd)])) == d + sd
  {
    MergeFields(d, Obj(map[STRING_DATA := Texts(sd)]));
    MergeNew(Texts(sd));
    StringsOfTexts(d);
    StringsOfTexts(sd);
  }

  lemma StringsOfTexts(d: Data)
    ensures Strings(Texts(d)) == d
  {
  }

  lemma RestorePatchEffect(d: Data, previous: string, dropKept: bool)
    ensures Patched(d, RestorePatch(previous, dropKept))
         == (if dropKept then d - {PREVIOUS_PASSWORD_KEY} else d)[PASSWORD := previous]
  {
    if dropKept {
      PatchTextsAndDrop(d, map[PASSWORD := previous]);
    } else {
      PatchTexts(d, map[PASSWORD := previous]);
    }
  }

  /** The same with the kept password dropped from `data` in one patch. */
  lemma PatchTextsAndDrop(d: Data, sd: Data)
    ensures Patched(d, Obj(map[STRING_DATA := Texts(sd), DATA := Field(DropKeptPatch(), DATA)]))
         == d - {PREVIOUS_PASSWORD_KEY} + sd
  {
    var patch := Obj(map[STRING_DATA := Texts(sd), DATA := Field(DropKeptPatch(), DATA)]);
    FieldsDistinct();
    MergeFields(d, patch);
    MergeNew(Texts(sd));
    StringsOfTexts(sd);
    MergeDrop(d);
  }

  lemma FieldsDistinct()
    ensures DATA != STRING_DATA
  {
    assert |DATA| != |STRING_DATA|;
  }

  lemma DropKeptPatchEffect(d: Data)
    ensures Patched(d, DropKeptPatch()) == d - {PREVIOUS_PASSWORD_KEY}
  {
    MergeFields(d, DropKeptPatch());
    MergeDrop(d);
  }

  /** A patch that names only `data` and `stringData` merges them one by one. */
  lemma MergeFields(d: Data, patch: Json)
    requires patch.Obj? && patch.fields.Keys <= {DATA, STRING_DATA}
    requires forall k | k in patch.fields :: patch.fields[k].Obj?
    ensures var m := MergePatch(SecretObject(d), patch);
            && Field(m, DATA) == (if DATA in patch.fields
                                  then MergePatch(Field(SecretObject(d), DATA), patch.fields[DATA])
                                  else Field(SecretObject(d), DATA))
            && Field(m, STRING_DATA) == (if STRING_DATA in patch.fields
                                         then MergePatch(Null, patch.fields[STRING_DATA])
                                         else Null)
  {
    FieldsDistinct();
  }

  /** Merging onto nothing a patch of plain strings gives the patch. */
  lemma MergeNew(patch: Json)
    requires patch.Obj? && forall k | k in patch.fields :: patch.fields[k].Str?
    ensures MergePatch(Null, patch) == patch
  {
    assert MergePatch(Null, patch).fields == patch.fields;
  }

  lemma MergeDrop(d: Data)
    ensures Strings(MergePatch(Field(SecretObject(d), DATA), Field(DropKeptPatch(), DATA)))
         == d - {PREVIOUS_PASSWORD_KEY}
  {
  }
}
