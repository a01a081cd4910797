/**
 * The block-editor addon script: an overlay listing the fields of the post's
 * type that have no selector yet, and drop targets on the editor's blocks.
 * Dropping a field on a block gives the block an id (when it has none),
 * records `#id` as that field's selector locally, removes the field from the
 * list and queues a request to store the selector on the server.
 */
module EditorAddon {
  import opened Php
  import opened JQuery

  /** One entry of `lwFieldData.fields`. */
  datatype FieldInfo = FieldInfo(name: string, caption: string)

  /**
   * The `lwFieldData` object the page localises for the script. `mapping`
   * holds the object's own keys; `inherited` names the properties it finds
   * through its prototype chain instead (`constructor`, `__proto__`,
   * `toString` and the other members of `Object.prototype`, and those of
   * `Array.prototype` when the mapping arrived as an empty array). Every one
   * of those holds a function or an object, so each reads as truthy.
   */
  datatype FieldData = FieldData(
    button: string,
    slug: string,
    nonce: string,
    fields: seq<FieldInfo>,
    mapping: map<string, string>,
    inherited: set<string>)

  /** The `lw_update_mapping` request a drop posts (the nonce goes as `_ajax_nonce`). */
  datatype MappingRequest = MappingRequest(slug: string, field: string, selector: string, ajaxNonce: string)

  /**
   * `lwFieldData.mapping[name]` is truthy: an own key holding a non-empty
   * selector, or, when there is no own key, an inherited property.
   */
  predicate HasSelector(mapping: map<string, string>, inherited: set<string>, name: string) {
    if name in mapping then mapping[name] != "" else name in inherited
  }

  /** The fields `buildList` shows: those without a selector, in field order. */
  function Unmapped(fields: seq<FieldInfo>, mapping: map<string, string>, inherited: set<string>): seq<FieldInfo> {
    Filter(fields, Unlisted(mapping, inherited))
  }

  /** The test `buildList` applies to each field. */
  function Unlisted(mapping: map<string, string>, inherited: set<string>): FieldInfo -> bool {
    (f: FieldInfo) => !HasSelector(mapping, inherited, f.name)
  }

  /**
   * A field is listed exactly when it is one of the type's fields and has no
   * selector: no own key holds a non-empty one, and without an own key the
   * name is not inherited.
   */
  lemma UnmappedIff(fields: seq<FieldInfo>, mapping: map<string, string>, inherited: set<string>, f: FieldInfo)
    ensures f in Unmapped(fields, mapping, inherited) <==>
      f in fields && (if f.name in mapping then mapping[f.name] == "" else f.name !in inherited)
  {
    FilterMembership(fields, Unlisted(mapping, inherited), f);
  }

  /** Some members of `Object.prototype`, which every mapping object inherits. */
  const ObjectMembers: set<string> := {"constructor", "__proto__", "toString", "valueOf", "hasOwnProperty"}

  /**
   * A field named like an inherited member, say `constructor` (a valid
   * `sanitize_key` result), is never listed while the mapping has no own key
   * of that name, although it has no selector.
   */
  lemma InheritedNameHidden(fields: seq<FieldInfo>, mapping: map<string, string>, inherited: set<string>, caption: string)
    requires ObjectMembers <= inherited && "constructor" !in mapping
    ensures FieldInfo("constructor", caption) !in Unmapped(fields, mapping, inherited)
  {
    UnmappedIff(fields, mapping, inherited, FieldInfo("constructor", caption));
  }

  /** `s.substr( start, len )` for a non-negative start and length. */
  function Substr(s: string, start: nat, len: nat): (r: string)
    ensures |r| <= len
  {
    if start >= |s| then [] else if start + len >= |s| then s[start..] else s[start..start + len]
  }

  /**
   * `'lw-' + Math.random().toString(36).substr(2, 8)`, with `random` standing
   * for the base-36 text of the random number (`0.` and its digits).
   */
  function FreshId(random: string): (r: string)
    ensures 3 <= |r| <= 11 && r[..3] == "lw-"
  {
    "lw-" + Substr(random, 2, 8)
  }

  /** The random number 0 prints as `0`, which leaves the bare prefix as the id. */
  lemma FreshIdOfZero()
    ensures FreshId("0") == "lw-"
  {
  }

  /** A random text of at least ten characters gives an id of exactly eleven. */
  lemma FreshIdLength(random: string)
    requires |random| >= 10
    ensures |FreshId(random)| == 11 && FreshId(random)[3..] == random[2..10]
  {
  }

  /** The id a block ends up with: its own when truthy, the fresh one otherwise. */
  function BlockId(own: Option<string>, random: string): (r: string)
    ensures own.Some? && own.value != "" ==> r == own.value
    ensures (own.None? || own.value == "") ==> r == FreshId(random)
    ensures r != ""
  {
    if own.Some? && own.value != "" then own.value else FreshId(random)
  }

  /** An element of `.editor-block-list__block`. */
  class Block {
    var id: Option<string>     // the `id` attribute, when present
    var flagged: bool          // `block.data( 'lw-droppable' )`
    var setups: nat            // how many times `droppable` was set up on it

    constructor (id0: Option<string>)
      ensures id == id0 && !flagged && setups == 0
    {
      id, flagged, setups := id0, false, 0;
    }

    /** Set up at most once, and flagged exactly when set up. */
    ghost predicate Valid()
      reads this
    {
      setups <= 1 && (flagged <==> setups == 1)
    }
  }

  /** The addon's state on one editor page. */
  class Addon {
    var active: bool                    // `lwFieldData` was defined
    var data: FieldData
    var visible: bool                   // the overlay is shown
    var list: seq<FieldInfo>            // the items of `#lw-field-list`
    var requests: seq<MappingRequest>   // posted `lw_update_mapping` requests

    /**
     * The script's start: without `lwFieldData` it returns at once and
     * nothing else happens; otherwise the hidden overlay and the button exist.
     */
    constructor (given: Option<FieldData>)
      ensures active == given.Some?
      ensures given.Some? ==> data == given.value
      ensures !visible && list == [] && requests == []
    {
      active := given.Some?;
      data := if given.Some? then given.value else FieldData("", "", "", [], map[], {});
      visible, list, requests := false, [], [];
    }

    /** `buildList`: the list is emptied, then one item per unmapped field, in order. */
    method BuildList()
      modifies this`list
      ensures list == Unmapped(data.fields, data.mapping, data.inherited)
    {
      list := [];
      var fields := data.fields;
      var keep := Unlisted(data.mapping, data.inherited);
      for i := 0 to |fields|
        invariant list == Filter(fields[..i], keep)
      {
        FilterSnoc(fields, keep, i);
        if !HasSelector(data.mapping, data.inherited, fields[i].name) {
          list := list + [fields[i]];
        }
      }
      assert fields[..|fields|] == fields;
    }

    /**
     * `makeDroppable`: every block not yet flagged is flagged and set up;
     * a flagged block, or a block met a second time, is skipped.
     */
    method MakeDroppable(blocks: seq<Block>)
      modifies set b | b in blocks
      ensures forall b :: b in blocks ==> b.flagged && b.id == old(b.id)
      ensures forall b :: b in blocks ==> b.setups == if old(b.flagged) then old(b.setups) else old(b.setups) + 1
      ensures forall b :: b in blocks && old(b.Valid()) ==> b.Valid()
    {
      for i := 0 to |blocks|
        invariant forall b :: b in blocks ==> b.id == old(b.id)
        invariant forall b :: b in blocks ==> (b.flagged <==> old(b.flagged) || b in blocks[..i])
        invariant forall b :: b in blocks ==>
          b.setups == if !old(b.flagged) && b in blocks[..i] then old(b.setups) + 1 else old(b.setups)
      {
        var block := blocks[i];
        assert forall b :: b in blocks[..i + 1] <==> b in blocks[..i] || b == block;
        if !block.flagged {
          block.flagged := true;
          block.setups := block.setups + 1;
        }
      }
      assert blocks[..|blocks|] == blocks;
    }

    /**
     * A click on the button: the overlay toggles. When it is now shown, the
     * list is rebuilt and every block not yet flagged is set up once; when it
     * is hidden, the blocks are untouched. No block's id changes.
     */
    method ButtonClick(blocks: seq<Block>)
      requires active
      modifies this`visible, this`list, set b | b in blocks
      ensures visible == !old(visible)
      ensures visible ==> list == Unmapped(data.fields, data.mapping, data.inherited)
      ensures !visible ==> list == old(list)
      ensures forall b :: b in blocks ==> b.id == old(b.id)
      ensures visible ==> forall b :: b in blocks ==> b.flagged
      ensures visible ==> forall b :: b in blocks ==>
        b.setups == if old(b.flagged) then old(b.setups) else old(b.setups) + 1
      ensures !visible ==> forall b :: b in blocks ==> b.flagged == old(b.flagged) && b.setups == old(b.setups)
      ensures forall b :: b in blocks && old(b.Valid()) ==> b.Valid()
    {
      visible := !visible;
      if visible {
        BuildList();
        MakeDroppable(blocks);
      }
    }

    /**
     * A drop of list item `k` on `block`. Without a field name that
     * `.data()` reads as truthy nothing happens. Otherwise the block keeps a truthy id or gets a fresh one,
     * the request is queued, the item leaves the list and the field's local
     * selector becomes `#` and the id, whatever the server will answer.
     */
    method Drop(block: Block, k: nat, random: string)
      requires k < |list|
      modifies this`list, this`requests, this`data, block`id
      ensures var field := old(list[k].name);
        if DataFalsy(field) then
          list == old(list) && requests == old(requests) && data == old(data) && block.id == old(block.id)
        else
          var id := BlockId(old(block.id), random);
          block.id == Some(id)
          && requests == old(requests) + [MappingRequest(data.slug, field, "#" + id, data.nonce)]
          && list == old(list[..k] + list[k + 1..])
          && data == old(data).(mapping := old(data.mapping)[field := "#" + id])
    {
      var field := list[k].name;
      if DataFalsy(field) {
        return;
      }
      var id := "";
      if block.id.Some? {
        id := block.id.value;
      }
      if id == "" {
        id := FreshId(random);
        block.id := Some(id);
      }
      requests := requests + [MappingRequest(data.slug, field, "#" + id, data.nonce)];
      list := list[..k] + list[k + 1..];
      data := data.(mapping := data.mapping[field := "#" + id]);
    }
  }

  /**
   * After a drop of a named field, rebuilding the list no longer shows that
   * field, and shows every other field exactly as before.
   */
  lemma DroppedFieldLeavesList(fields: seq<FieldInfo>, mapping: map<string, string>, inherited: set<string>,
                                field: string, id: string, f: FieldInfo)
    requires field != "" && id != ""
    ensures f in Unmapped(fields, mapping[field := "#" + id], inherited) <==>
      f in Unmapped(fields, mapping, inherited) && f.name != field
  {
    UnmappedIff(fields, mapping, inherited, f);
    UnmappedIff(fields, mapping[field := "#" + id], inherited, f);
  }
}
