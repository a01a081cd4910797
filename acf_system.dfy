/**
 * The ACF glue of includes/class-acf-system.php: normalising a content type's
 * field list into an ACF local field group, and the quick-edit support that
 * adds one list-table column per field and saves posted values to post meta.
 */
module AcfSystem {
  import opened Php
  import opened Wp

  // ---------------------------------------------------------------------
  // register_fields
  // ---------------------------------------------------------------------

  /** `sanitize_key( $field['name'] ?? '' )` */
  function FieldName(f: FieldDef): string {
    SanitizeKey(f.name.GetOr(""))
  }

  predicate HasName(f: FieldDef) {
    Truthy(FieldName(f))
  }

  /** The field substituted for an empty list. */
  const SubtitleDefault: seq<FieldDef> := [FieldDef(Some("Subtitle"), Some("subtitle"), Some("text"))]

  /** PHP's `ucfirst` on an ASCII string. */
  function Ucfirst(s: string): string {
    if s != [] && 'a' <= s[0] <= 'z' then [(s[0] as int - 32) as char] + s[1..] else s
  }

  /** The ACF field built from one definition: label `?:` name, type `??` 'text'. */
  function AcfFieldOf(h: Host, slug: string, f: FieldDef): AcfField {
    var name := FieldName(f);
    AcfField("field_" + slug + "_" + name, Elvis(h.text(f.caption.GetOr("")), name), name, h.text(f.typ.GetOr("text")))
  }

  /** The fields kept from `fields`, in order: one per definition with a non-empty sanitised name. */
  function Normalized(h: Host, slug: string, fields: seq<FieldDef>): seq<AcfField> {
    if fields == [] then []
    else
      var n := |fields| - 1;
      Normalized(h, slug, fields[..n]) + (if HasName(fields[n]) then [AcfFieldOf(h, slug, fields[n])] else [])
  }

  /**
   * Every kept field has a non-empty key-shaped name, the key
   * `field_<slug>_<name>` and a truthy label; every definition with a name is
   * kept; the result is empty exactly when no definition has a name.
   */
  lemma {:induction false} NormalizedShape(h: Host, slug: string, fields: seq<FieldDef>)
    ensures forall a :: a in Normalized(h, slug, fields) ==>
      IsKey(a.name) && Truthy(a.name) && Truthy(a.caption) && a.key == "field_" + slug + "_" + a.name
    ensures forall f :: f in fields && HasName(f) ==> AcfFieldOf(h, slug, f) in Normalized(h, slug, fields)
    ensures |Normalized(h, slug, fields)| <= |fields|
    ensures Normalized(h, slug, fields) == [] <==> forall f :: f in fields ==> !HasName(f)
  {
    if fields != [] {
      var n := |fields| - 1;
      NormalizedShape(h, slug, fields[..n]);
      assert fields == fields[..n] + [fields[n]];
      if HasName(fields[n]) {
        assert AcfFieldOf(h, slug, fields[n]) in Normalized(h, slug, fields);
      }
    }
  }

  /** Two kept fields of one type share a key only if they share a name. */
  lemma KeysDetermineNames(h: Host, slug: string, fields: seq<FieldDef>, a: AcfField, b: AcfField)
    requires a in Normalized(h, slug, fields) && b in Normalized(h, slug, fields)
    requires a.key == b.key
    ensures a.name == b.name
  {
    NormalizedShape(h, slug, fields);
    var p := "field_" + slug + "_";
    assert a.name == a.key[|p|..];
    assert b.name == b.key[|p|..];
  }

  /** The group `register_fields` hands to ACF, if any: located on the post type `slug`. */
  function GroupFor(h: Host, slug: string, fields: seq<FieldDef>): Option<FieldGroup> {
    var fs := Normalized(h, slug, if fields == [] then SubtitleDefault else fields);
    if fs == [] then None else Some(FieldGroup("group_" + slug, Ucfirst(slug) + " Fields", fs, slug))
  }

  /** An empty field list yields a group holding the single text field `subtitle`. */
  lemma EmptyListGetsSubtitle(h: Host, slug: string)
    ensures GroupFor(h, slug, []) == Some(FieldGroup("group_" + slug, Ucfirst(slug) + " Fields",
      [AcfField("field_" + slug + "_" + "subtitle", Elvis(h.text("Subtitle"), "subtitle"), "subtitle", h.text("text"))], slug))
  {
    var x := SubtitleDefault[0];
    SubtitleIsKept();
    assert SubtitleDefault[..0] == [];
    assert Normalized(h, slug, SubtitleDefault) == [AcfFieldOf(h, slug, x)];
  }

  /** The default field's name survives sanitising. */
  lemma SubtitleIsKept()
    ensures FieldName(SubtitleDefault[0]) == "subtitle" && HasName(SubtitleDefault[0])
  {
    assert IsKey("subtitle");
    SanitizeKeyKeepsKeys("subtitle");
    assert FieldName(SubtitleDefault[0]) == "subtitle";
  }

  /** No group is registered exactly when a non-empty list has no definition with a name. */
  lemma NoGroupIffNoNames(h: Host, slug: string, fields: seq<FieldDef>)
    ensures GroupFor(h, slug, fields).None? <==> fields != [] && forall f :: f in fields ==> !HasName(f)
  {
    if fields == [] {
      NormalizedShape(h, slug, SubtitleDefault);
      SubtitleIsKept();
      assert SubtitleDefault[0] in SubtitleDefault;
    } else {
      NormalizedShape(h, slug, fields);
    }
  }

  /** The `foreach` of `register_fields` that accumulates `$acf_fields`. */
  method NormalizeFields(h: Host, slug: string, fields: seq<FieldDef>) returns (acf: seq<AcfField>)
    ensures acf == Normalized(h, slug, fields)
  {
    acf := [];
    var i := 0;
    while i < |fields|
      invariant 0 <= i <= |fields|
      invariant acf == Normalized(h, slug, fields[..i])
    {
      assert fields[..i + 1][..i] == fields[..i];
      var f := fields[i];
      var name := SanitizeKey(f.name.GetOr(""));
      var caption := h.text(f.caption.GetOr(""));
      var typ := h.text(f.typ.GetOr("text"));
      if Truthy(name) {
        acf := acf + [AcfField("field_" + slug + "_" + name, Elvis(caption, name), name, typ)];
      }
      i := i + 1;
    }
    assert fields[..i] == fields;
  }

  /**
   * `register_fields`: without ACF nothing happens; otherwise the group of the
   * normalised fields, if any survives, is registered under `group_<slug>`.
   */
  method RegisterFields(site: Site, h: Host, acfActive: bool, slug: string, fields: seq<FieldDef>)
    modifies site`fieldGroups
    ensures acfActive && GroupFor(h, slug, fields).Some? ==>
      site.fieldGroups == old(site.fieldGroups)["group_" + slug := GroupFor(h, slug, fields).value]
    ensures !(acfActive && GroupFor(h, slug, fields).Some?) ==> site.fieldGroups == old(site.fieldGroups)
  {
    if !acfActive {
      return;
    }
    var fs := if fields == [] then SubtitleDefault else fields;
    var acf := NormalizeFields(h, slug, fs);
    if acf == [] {
      assert GroupFor(h, slug, fields).None?;
      return;
    }
    var group := FieldGroup("group_" + slug, Ucfirst(slug) + " Fields", acf, slug);
    assert GroupFor(h, slug, fields) == Some(group);
    site.fieldGroups := site.fieldGroups[group.key := group];
  }

  // ---------------------------------------------------------------------
  // add_quick_edit: hook registration and the columns filter
  // ---------------------------------------------------------------------

  /** `add_quick_edit`: hooks are added for the type only when it has fields. */
  method AddQuickEdit(site: Site, slug: string, fields: seq<FieldDef>)
    modifies site`quickEdit
    ensures site.quickEdit == if fields == [] then old(site.quickEdit) else old(site.quickEdit) + [(slug, fields)]
  {
    if fields == [] {
      return;
    }
    site.quickEdit := site.quickEdit + [(slug, fields)];
  }

  /** A list-table column: key and header, in the order of the PHP array. */
  type Column = (string, string)

  function ColKey(c: Column): string { c.0 }

  predicate UniqueKeys(cols: seq<Column>) {
    forall i, j :: 0 <= i < j < |cols| ==> cols[i].0 != cols[j].0
  }

  /** `$cols[$k]`, if set. */
  function Lookup(cols: seq<Column>, k: string): Option<string> {
    match LastWithKey(cols, ColKey, k)
    case Some(i) => Some(cols[i].1)
    case None => None
  }

  /** `$cols[$k] = $v`: an existing key keeps its position, a new key is appended. */
  function Put(cols: seq<Column>, k: string, v: string): seq<Column> {
    match LastWithKey(cols, ColKey, k)
    case Some(i) => cols[i := (k, v)]
    case None => cols + [(k, v)]
  }

  /** The column header of a field: `esc_html( $field['label'] )`. */
  function Header(h: Host, f: FieldDef): string {
    h.escHtml(f.caption.GetOr(""))
  }

  /** The columns after the filter has run over `fields` in order. */
  function Columns(h: Host, cols: seq<Column>, fields: seq<FieldDef>): seq<Column> {
    if fields == [] then cols
    else
      var n := |fields| - 1;
      Put(Columns(h, cols, fields[..n]), FieldName(fields[n]), Header(h, fields[n]))
  }

  /** One assignment keeps keys unique and existing columns in place, and changes only the assigned key. */
  lemma PutLookup(cols: seq<Column>, k: string, v: string)
    requires UniqueKeys(cols)
    ensures UniqueKeys(Put(cols, k, v))
    ensures |cols| <= |Put(cols, k, v)| && forall i :: 0 <= i < |cols| ==> Put(cols, k, v)[i].0 == cols[i].0
    ensures forall x :: Lookup(Put(cols, k, v), x) == if x == k then Some(v) else Lookup(cols, x)
  {
    var r := Put(cols, k, v);
    match LastWithKey(cols, ColKey, k)
    case Some(i) =>
      forall x ensures Lookup(r, x) == if x == k then Some(v) else Lookup(cols, x) {
        LastWithKeySameKeys(r, cols, ColKey, x);
      }
    case None =>
      forall x ensures Lookup(r, x) == if x == k then Some(v) else Lookup(cols, x) {
        assert r[..|cols|] == cols;
      }
  }

  /**
   * The columns filter keeps every existing column in place and sets, for each
   * field name, the header of the LAST field with that name; other columns keep
   * their header.
   */
  lemma {:induction false} ColumnsLookup(h: Host, cols: seq<Column>, fields: seq<FieldDef>, k: string)
    requires UniqueKeys(cols)
    ensures UniqueKeys(Columns(h, cols, fields))
    ensures |cols| <= |Columns(h, cols, fields)|
    ensures forall i :: 0 <= i < |cols| ==> Columns(h, cols, fields)[i].0 == cols[i].0
    ensures Lookup(Columns(h, cols, fields), k) ==
      match LastWithKey(fields, FieldName, k)
      case Some(j) => Some(Header(h, fields[j]))
      case None => Lookup(cols, k)
  {
    if fields != [] {
      var n := |fields| - 1;
      ColumnsLookup(h, cols, fields[..n], k);
      PutLookup(Columns(h, cols, fields[..n]), FieldName(fields[n]), Header(h, fields[n]));
      if FieldName(fields[n]) != k {
        assert LastWithKey(fields, FieldName, k) == LastWithKey(fields[..n], FieldName, k);
        match LastWithKey(fields[..n], FieldName, k)
        case Some(j) => assert fields[..n][j] == fields[j];
        case None =>
      }
    }
  }

  /** One more field adds one more assignment on top of the earlier ones. */
  lemma ColumnsSnoc(h: Host, cols: seq<Column>, fields: seq<FieldDef>, i: nat)
    requires i < |fields|
    ensures Columns(h, cols, fields[..i + 1]) == Put(Columns(h, cols, fields[..i]), FieldName(fields[i]), Header(h, fields[i]))
  {
    assert fields[..i + 1][..i] == fields[..i];
  }

  /** One `$cols[ $name ] = $header;` on an array without repeated keys. */
  method PutColumn(cols: seq<Column>, name: string, header: string) returns (r: seq<Column>)
    requires UniqueKeys(cols)
    ensures r == Put(cols, name, header) && UniqueKeys(r)
  {
    PutLookup(cols, name, header);
    var at := 0;
    while at < |cols| && cols[at].0 != name
      invariant 0 <= at <= |cols|
      invariant forall j :: 0 <= j < at ==> cols[j].0 != name
    {
      at := at + 1;
    }
    if at < |cols| {
      assert LastWithKey(cols, ColKey, name) == Some(at);
      r := cols[at := (name, header)];
    } else {
      r := cols + [(name, header)];
    }
  }

  /** The filter closure: `foreach ( $fields as $field ) $cols[ sanitize_key( name ) ] = esc_html( label );` */
  method ManageColumns(h: Host, cols: seq<Column>, fields: seq<FieldDef>) returns (r: seq<Column>)
    requires UniqueKeys(cols)  // a PHP array never holds a key twice
    ensures r == Columns(h, cols, fields)
  {
    r := cols;
    var i := 0;
    while i < |fields|
      invariant 0 <= i <= |fields|
      invariant r == Columns(h, cols, fields[..i])
      invariant UniqueKeys(r)
    {
      ColumnsSnoc(h, cols, fields, i);
      r := PutColumn(r, SanitizeKey(fields[i].name.GetOr("")), h.escHtml(fields[i].caption.GetOr("")));
      i := i + 1;
    }
    assert fields[..i] == fields;
  }

  // ---------------------------------------------------------------------
  // add_quick_edit: the save_post closure
  // ---------------------------------------------------------------------

  /** The meta the save closure writes for one post, starting from `m`: `isset( $_POST[ $name ] )` guards each write. */
  function SavedMeta(h: Host, m: map<string, string>, fields: seq<FieldDef>, request: map<string, string>): map<string, string> {
    if fields == [] then m
    else
      var n := |fields| - 1;
      var prev := SavedMeta(h, m, fields[..n], request);
      var name := FieldName(fields[n]);
      if name in request then prev[name := h.text(request[name])] else prev
  }

  /**
   * After a save, a meta key holds the sanitised request value exactly when
   * some field with that name was posted; every other key is as before.
   */
  lemma {:induction false} SavedMetaLookup(h: Host, m: map<string, string>, fields: seq<FieldDef>, request: map<string, string>, k: string)
    ensures var written := k in request && exists f :: f in fields && FieldName(f) == k;
      var r := SavedMeta(h, m, fields, request);
      (k in r <==> k in m || written)
      && (written ==> r[k] == h.text(request[k]))
      && (!written && k in m ==> r[k] == m[k])
  {
    if fields != [] {
      var n := |fields| - 1;
      SavedMetaLookup(h, m, fields[..n], request, k);
      NamedSnoc(fields, fields[..n], k);
    }
  }

  /** Some field is named `k` exactly when some field before the last is, or the last one is. */
  lemma NamedSnoc(fields: seq<FieldDef>, init: seq<FieldDef>, k: string)
    requires fields != [] && init == fields[..|fields| - 1]
    ensures (exists f :: f in fields && FieldName(f) == k)
        <==> (exists f :: f in init && FieldName(f) == k) || FieldName(fields[|fields| - 1]) == k
  {
    assert fields == init + [fields[|fields| - 1]];
  }

  /** The save closure: nothing during an autosave, else one meta write per posted field, in field order. */
  method SaveMeta(site: Site, h: Host, postId: nat, fields: seq<FieldDef>, request: map<string, string>, autosave: bool)
    modifies site`meta
    ensures autosave ==> site.meta == old(site.meta)
    ensures !autosave ==> site.meta == old(site.meta)[postId := SavedMeta(h, MetaOf(old(site.meta), postId), fields, request)]
  {
    if autosave {
      return;
    }
    var i := 0;
    var m := MetaOf(site.meta, postId);
    while i < |fields|
      invariant 0 <= i <= |fields|
      invariant m == SavedMeta(h, MetaOf(old(site.meta), postId), fields[..i], request)
      invariant site.meta == old(site.meta)
    {
      assert fields[..i + 1][..i] == fields[..i];
      var name := SanitizeKey(fields[i].name.GetOr(""));
      if name in request {
        m := m[name := h.text(request[name])];
      }
      i := i + 1;
    }
    assert fields[..i] == fields;
    site.meta := site.meta[postId := m];
  }
}
