/**
 * The WordPress host as the plugin sees it: the options table (a map from
 * option name to value), the posts table, post meta, admin notices, and the
 * registries that `register_post_type`, `acf_add_local_field_group`, the
 * quick-edit hooks and WP-Cron keep. The sanitising and escaping functions of
 * WordPress are uninterpreted: they are fields of a `Host` value.
 */
module Wp {
  import opened Php

  /** WordPress's text sanitisers and escapers, whose code is not part of this model. */
  datatype Host = Host(
    text: string -> string,         // sanitize_text_field
    textarea: string -> string,     // sanitize_textarea_field
    titleDashes: string -> string,  // sanitize_title_with_dashes
    kses: string -> string,         // wp_kses_post
    escHtml: string -> string,      // esc_html
    escAttr: string -> string,      // esc_attr
    unslash: string -> string)      // wp_unslash

  /** One custom field of a content type, as stored; a missing array key is `None`. */
  datatype FieldDef = FieldDef(caption: Option<string>, name: Option<string>, typ: Option<string>)

  /** One record of the `lightwork_cpts` option, as the admin form stores it. */
  datatype ContentType = ContentType(
    slug: string,
    single: string,
    plural: string,
    public: bool,
    hasArchive: bool,
    supports: seq<string>,
    acfFields: seq<FieldDef>,
    menuIcon: string,
    rewriteSlug: string,
    hierarchical: bool,
    templatePage: nat)

  /** The values the plugin keeps in the options table. */
  datatype Value =
    | TypeList(types: seq<ContentType>)            // lightwork_cpts
    | Selectors(selectors: map<string, string>)    // lw_template_map_<slug>
    | Text(text: string)                           // lw_sandbox_html
    | Number(number: int)                          // lw_sandbox_page_id

  const OptionCpts := "lightwork_cpts"

  /** `get_option( OPTION_CPTS, [] )` */
  function StoredTypes(options: map<string, Value>): seq<ContentType> {
    if OptionCpts in options && options[OptionCpts].TypeList? then options[OptionCpts].types else []
  }

  /** A row of the posts table; `name` is the post slug (`post_name`). */
  datatype Post = Post(postType: string, title: string, status: string, content: string, name: string)

  /** An admin notice queued by `add_settings_error`. */
  datatype Notice = Notice(code: string, isError: bool)

  datatype Labels = Labels(
    name: string,
    singularName: string,
    addNewItem: string,
    editItem: string,
    newItem: string,
    viewItem: string,
    searchItems: string,
    notFound: string,
    notFoundInTrash: string)

  /** The arguments handed to `register_post_type`. */
  datatype PostTypeArgs = PostTypeArgs(
    labels: Labels,
    public: bool,
    showInRest: bool,
    hasArchive: bool,
    rewriteSlug: string,
    supports: seq<string>,
    hierarchical: bool,
    menuIcon: Option<string>)

  /** One field of an ACF local field group. */
  datatype AcfField = AcfField(key: string, caption: string, name: string, typ: string)

  /** The group handed to `acf_add_local_field_group`, located on one post type. */
  datatype FieldGroup = FieldGroup(key: string, title: string, fields: seq<AcfField>, postType: string)

  /** `$wpdb->update( $wpdb->posts, [ 'post_type' => to ], [ 'post_type' => from ] )` on a posts table. */
  function Retyped(posts: map<nat, Post>, from: string, to: string): map<nat, Post> {
    map id | id in posts :: if posts[id].postType == from then posts[id].(postType := to) else posts[id]
  }

  /** `get_post_meta` of every key of one post: empty when the post has none. */
  function MetaOf(meta: map<nat, map<string, string>>, id: nat): map<string, string> {
    if id in meta then meta[id] else map[]
  }

  /** The whole host state, as a value: what the plugin's operations are specified against. */
  datatype State = State(
    options: map<string, Value>,
    posts: map<nat, Post>,
    nextId: nat,
    meta: map<nat, map<string, string>>,
    notices: seq<Notice>,
    postTypes: map<string, PostTypeArgs>,
    fieldGroups: map<string, FieldGroup>,
    quickEdit: seq<(string, seq<FieldDef>)>,
    cronNext: Option<int>)

  class Site {
    var options: map<string, Value>
    var posts: map<nat, Post>
    var nextId: nat
    var meta: map<nat, map<string, string>>   // post id -> meta key -> value
    var notices: seq<Notice>
    var postTypes: map<string, PostTypeArgs>
    var fieldGroups: map<string, FieldGroup>
    var quickEdit: seq<(string, seq<FieldDef>)>
    var cronNext: Option<int>

    /** Post ids are positive and below the next auto-increment id. */
    ghost predicate Valid()
      reads this
    {
      0 < nextId && forall id :: id in posts ==> 0 < id < nextId
    }

    function Snap(): State
      reads this
    {
      State(options, posts, nextId, meta, notices, postTypes, fieldGroups, quickEdit, cronNext)
    }

    constructor ()
      ensures Valid()
      ensures options == map[] && posts == map[] && meta == map[] && notices == []
      ensures postTypes == map[] && fieldGroups == map[] && quickEdit == [] && cronNext == None
    {
      options, posts, nextId, meta, notices := map[], map[], 1, map[], [];
      postTypes, fieldGroups, quickEdit, cronNext := map[], map[], [], None;
    }

    /** `wp_update_post` with every modelled column given: the row is replaced. */
    method UpdatePost(id: nat, p: Post)
      requires id in posts
      modifies this`posts
      ensures posts == old(posts)[id := p]
    {
      posts := posts[id := p];
    }

    /** `wp_insert_post`: stores the post under the next auto-increment id and returns it. */
    method InsertPost(p: Post) returns (id: nat)
      requires Valid()
      modifies this`posts, this`nextId
      ensures Valid()
      ensures id == old(nextId) && 0 < id && id !in old(posts)
      ensures posts == old(posts)[id := p] && nextId == old(nextId) + 1
    {
      id := nextId;
      posts := posts[id := p];
      nextId := nextId + 1;
    }

    /** `add_settings_error`: queues an admin notice. */
    method AddNotice(code: string, isError: bool)
      modifies this`notices
      ensures notices == old(notices) + [Notice(code, isError)]
    {
      notices := notices + [Notice(code, isError)];
    }
  }
}
