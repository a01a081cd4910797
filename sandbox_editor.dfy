/**
 * The server side of the sandbox editor, Lightwork-plugin/includes/class-sandbox-editor.php:
 * `ajax_save` cleans the posted HTML, assembles one document with optional
 * `<style>` and `<script>` blocks, stores it in `lw_sandbox_html` and
 * updates (or creates and remembers) the draft sandbox page; `enqueue_assets`
 * decides where the editor script loads and builds its name-to-label map.
 */
module SandboxEditor {
  import opened Php
  import opened Wp

  const OptionHtml := "lw_sandbox_html"
  const OptionPage := "lw_sandbox_page_id"
  const DefaultHtml := "<p>Hello World</p>"

  // ---------------------------------------------------------------------
  // preg_replace( '#</?(head|body)[^>]*>#i', '', $html )
  // ---------------------------------------------------------------------

  /** `s` starts with `w`, ASCII letters compared case-insensitively. */
  predicate StartsWithNoCase(s: string, w: string) {
    |w| <= |s| && forall i :: 0 <= i < |w| ==> LowerAscii(s[i]) == w[i]
  }

  /** Index of the first `>` in `s`, if any. */
  function FirstGt(s: string): (r: Option<nat>)
    ensures r.Some? ==> r.value < |s| && s[r.value] == '>'
    ensures r.Some? ==> forall j :: 0 <= j < r.value ==> s[j] != '>'
    ensures r.None? ==> forall j :: 0 <= j < |s| ==> s[j] != '>'
  {
    if s == [] then None
    else if s[0] == '>' then Some(0)
    else match FirstGt(s[1..])
      case None => None
      case Some(k) => Some(k + 1)
  }

  /** Length of the tag the pattern matches at the start of `s`, if it matches there. */
  function MatchAt(s: string): (r: Option<nat>)
    ensures r.Some? ==> 0 < r.value <= |s| && s[0] == '<' && s[r.value - 1] == '>'
  {
    if s == [] || s[0] != '<' then None
    else
      var p := if |s| > 1 && s[1] == '/' then 2 else 1;
      var rest := s[p..];
      if !(StartsWithNoCase(rest, "head") || StartsWithNoCase(rest, "body")) then None
      else match FirstGt(rest[4..])
        case None => None
        case Some(k) => Some(p + 4 + k + 1)
  }

  /** Every match, scanned left to right without overlap, replaced by the empty string. */
  function StripHeadBody(s: string): (r: string)
    ensures |r| <= |s|
    decreases |s|
  {
    if s == [] then []
    else match MatchAt(s)
      case Some(k) => StripHeadBody(s[k..])
      case None => [s[0]] + StripHeadBody(s[1..])
  }

  /** Text with no `<` passes through unchanged. */
  lemma {:induction false} StripWithoutTags(s: string)
    requires forall i :: 0 <= i < |s| ==> s[i] != '<'
    ensures StripHeadBody(s) == s
  {
    if s != [] {
      StripWithoutTags(s[1..]);
    }
  }

  /** Where the tag name starts: after `</`, else after `<`. */
  function NameStart(s: string): nat {
    if |s| > 1 && s[1] == '/' then 2 else 1
  }

  /** `s` opens a head or body tag: `<` or `</`, then `head` or `body` in any letter case. */
  predicate Opens(s: string) {
    s != [] && s[0] == '<'
    && (StartsWithNoCase(s[NameStart(s)..], "head") || StartsWithNoCase(s[NameStart(s)..], "body"))
  }

  /** Text in which no head or body tag opens; other markup, `<p>` say, may occur. */
  predicate Plain(x: string) {
    forall i :: 0 <= i < |x| ==> !Opens(x[i..])
  }

  /** A complete head or body tag: its opening, then anything but `>`, then the closing `>`. */
  predicate HeadBodyTag(t: string) {
    Opens(t) && NameStart(t) + 5 <= |t| && t[|t| - 1] == '>'
    && forall j :: NameStart(t) + 4 <= j < |t| - 1 ==> t[j] != '>'
  }

  /** Only an opening can start a match. */
  lemma MatchOpens(s: string)
    ensures MatchAt(s).Some? ==> Opens(s)
  {
  }

  /** The first `>` is the one at `k` when none comes before it. */
  lemma FirstGtAt(u: string, k: nat)
    requires k < |u| && u[k] == '>'
    requires forall j :: 0 <= j < k ==> u[j] != '>'
    ensures FirstGt(u) == Some(k)
  {
  }

  /**
   * A tag `<name` (or `</name`, `p` being 1 or 2) whose first `>` after the
   * name is `k` characters on is matched up to and including that `>`.
   */
  lemma MatchesTag(s: string, p: nat, name: string, k: nat)
    requires name == "head" || name == "body"
    requires p == (if |s| > 1 && s[1] == '/' then 2 else 1)
    requires p + 4 + k < |s| && s[0] == '<'
    requires StartsWithNoCase(s[p..], name)
    requires s[p + 4 + k] == '>' && forall j :: p + 4 <= j < p + 4 + k ==> s[j] != '>'
    ensures MatchAt(s) == Some(p + 4 + k + 1)
  {
    var u := s[p..][4..];
    assert u[k] == '>';
    forall j | 0 <= j < k
      ensures u[j] != '>'
    {
      assert u[j] == s[p + 4 + j];
    }
    FirstGtAt(u, k);
  }

  /** A complete tag at the front is matched exactly, whatever follows it. */
  lemma TagMatches(t: string, y: string)
    requires HeadBodyTag(t)
    ensures MatchAt(t + y) == Some(|t|)
  {
    var s := t + y;
    var p := NameStart(t);
    assert s[1] == t[1];
    var name := if StartsWithNoCase(t[p..], "head") then "head" else "body";
    assert StartsWithNoCase(s[p..], name) by {
      forall i | 0 <= i < 4
        ensures LowerAscii(s[p..][i]) == name[i]
      {
        assert s[p..][i] == t[p..][i];
      }
    }
    MatchesTag(s, p, name, |t| - 1 - p - 4);
  }

  /** A name that a `<` interrupts at position `i` is not there. */
  lemma Interrupted(u: string, w: string, i: nat)
    requires i < |u| && i < |w| && u[i] == '<' && w[i] != '<'
    ensures !StartsWithNoCase(u, w)
  {
  }

  /** A name that is there at `p` of a longer text is there at `p` of its prefix `x`, when it fits in `x`. */
  lemma NameInPrefix(x: string, s: string, p: nat, w: string)
    requires p + |w| <= |x| <= |s| && x == s[..|x|]
    requires StartsWithNoCase(s[p..], w)
    ensures StartsWithNoCase(x[p..], w)
  {
    forall i | 0 <= i < |w|
      ensures LowerAscii(x[p..][i]) == w[i]
    {
      assert x[p..][i] == s[p..][i];
    }
  }

  /** Text that opens no tag still opens none when a `<` follows it. */
  lemma NoOpeningBeforeOpen(x: string, rest: string)
    requires x != [] && !Opens(x) && rest != [] && rest[0] == '<'
    ensures !Opens(x + rest)
  {
    var s := x + rest;
    assert x == s[..|x|];
    if s[0] == '<' {
      var p := NameStart(s);
      if |x| == 1 {
        assert s[1] == '<';
        Interrupted(s[p..], "head", 0);
        Interrupted(s[p..], "body", 0);
      } else {
        assert NameStart(x) == p;
        if |x| >= p + 4 {
          if StartsWithNoCase(s[p..], "head") {
            NameInPrefix(x, s, p, "head");
          }
          if StartsWithNoCase(s[p..], "body") {
            NameInPrefix(x, s, p, "body");
          }
        } else {
          assert s[p..][|x| - p] == '<';
          Interrupted(s[p..], "head", |x| - p);
          Interrupted(s[p..], "body", |x| - p);
        }
      }
    }
  }

  /** Where nothing matches, the first character is kept and the scan moves on by one. */
  lemma KeepsUnmatched(s: string)
    requires s != [] && MatchAt(s).None?
    ensures StripHeadBody(s) == [s[0]] + StripHeadBody(s[1..])
  {
  }

  /**
   * Text that opens no head or body tag, followed by such a tag: the text is
   * kept, the tag is removed, and the scan goes on after the tag.
   */
  lemma {:induction false} StripSkipsTag(x: string, t: string, y: string)
    requires Plain(x) && HeadBodyTag(t)
    ensures StripHeadBody(x + t + y) == x + StripHeadBody(y)
    decreases |x|
  {
    if x == [] {
      assert x + t + y == t + y;
      StripTagFirst(t, y);
    } else {
      Regroup(x, t, y);
      StripStep(x, t + y);
      PlainTail(x);
      StripSkipsTag(x[1..], t, y);
      ConsConcat(x, StripHeadBody(y));
    }
  }

  /** A complete head/body tag at the very start is dropped whole. */
  lemma StripTagFirst(t: string, y: string)
    requires HeadBodyTag(t)
    ensures StripHeadBody(t + y) == StripHeadBody(y)
  {
    TagMatches(t, y);
    assert (t + y)[|t|..] == y;
  }

  lemma Regroup<T>(x: seq<T>, t: seq<T>, y: seq<T>)
    requires x != []
    ensures x + t + y == x + (t + y)
    ensures x[1..] + (t + y) == x[1..] + t + y
  {
  }

  /** Before a `<`, the first character of text that opens no tag is kept. */
  lemma StripStep(x: string, rest: string)
    requires x != [] && Plain(x) && rest != [] && rest[0] == '<'
    ensures StripHeadBody(x + rest) == [x[0]] + StripHeadBody(x[1..] + rest)
  {
    var s := x + rest;
    assert x[0..] == x;
    NoOpeningBeforeOpen(x, rest);
    MatchOpens(s);
    KeepsUnmatched(s);
    assert s[1..] == x[1..] + rest;
  }

  /** What opens no tag still opens none without its first character. */
  lemma PlainTail(x: string)
    requires x != [] && Plain(x)
    ensures Plain(x[1..])
  {
    forall i | 0 <= i < |x| - 1
      ensures !Opens(x[1..][i..])
    {
      assert x[1..][i..] == x[i + 1..];
    }
  }

  /** Putting the head back in front of the tail and the text after it rebuilds both. */
  lemma ConsConcat<T>(x: seq<T>, r: seq<T>)
    requires x != []
    ensures [x[0]] + (x[1..] + r) == x + r
  {
    assert [x[0]] + x[1..] == x;
  }

  /** Text that opens no head or body tag passes through unchanged. */
  lemma {:induction false} StripPlain(x: string)
    requires Plain(x)
    ensures StripHeadBody(x) == x
  {
    if x != [] {
      assert x[0..] == x;
      MatchOpens(x);
      PlainTail(x);
      StripPlain(x[1..]);
    }
  }

  /** A stretch of text and the head or body tag after it. */
  datatype Piece = Piece(text: string, tag: string)

  /** The document the pieces make, followed by the text `last`. */
  function Woven(parts: seq<Piece>, last: string): string {
    if parts == [] then last else parts[0].text + parts[0].tag + Woven(parts[1..], last)
  }

  /** The pieces' texts alone, followed by `last`. */
  function Texts(parts: seq<Piece>, last: string): string {
    if parts == [] then last else parts[0].text + Texts(parts[1..], last)
  }

  /**
   * Every complete head and body tag is removed and every other character
   * kept, for any document whose text between the tags opens none itself.
   */
  lemma {:induction false} StripRemovesEveryTag(parts: seq<Piece>, last: string)
    requires forall i :: 0 <= i < |parts| ==> Plain(parts[i].text) && HeadBodyTag(parts[i].tag)
    requires Plain(last)
    ensures StripHeadBody(Woven(parts, last)) == Texts(parts, last)
  {
    if parts == [] {
      StripPlain(last);
    } else {
      StripSkipsTag(parts[0].text, parts[0].tag, Woven(parts[1..], last));
      StripRemovesEveryTag(parts[1..], last);
    }
  }

  /** The pattern matches on a prefix of the tag name: `<header>` is removed too. */
  lemma StripRemovesHeader()
    ensures StripHeadBody("<header>x") == "x"
  {
    var t := "<header>";
    assert StartsWithNoCase(t[1..], "head");
    assert HeadBodyTag(t);
    StripSkipsTag("", t, "x");
    assert "" + t + "x" == "<header>x";
    StripWithoutTags("x");
  }

  /** Upper- and mixed-case tags, with attributes, are removed. */
  lemma StripIgnoresCase()
    ensures StripHeadBody("<BODY id=a>") == ""
    ensures StripHeadBody("</Body>") == ""
  {
    UpperBodyTag();
    StripTagFirst("<BODY id=a>", "");
    assert "<BODY id=a>" + "" == "<BODY id=a>";
    MixedCloseTag();
    StripTagFirst("</Body>", "");
    assert "</Body>" + "" == "</Body>";
  }

  lemma UpperBodyTag()
    ensures HeadBodyTag("<BODY id=a>")
  {
    var s := "<BODY id=a>";
    assert StartsWithNoCase(s[1..], "body") by {
      assert LowerAscii('B') == 'b' && LowerAscii('O') == 'o' && LowerAscii('D') == 'd' && LowerAscii('Y') == 'y';
    }
  }

  lemma MixedCloseTag()
    ensures HeadBodyTag("</Body>")
  {
    var t := "</Body>";
    assert StartsWithNoCase(t[2..], "body") by {
      assert LowerAscii('B') == 'b';
    }
  }

  /** A tag without its closing `>` is left alone. */
  lemma StripNeedsClosingBracket()
    ensures StripHeadBody("<body") == "<body"
  {
    var s := "<body";
    assert s[1..][4..] == [];
    assert MatchAt(s).None?;
    assert s[1..] == "body";
    StripWithoutTags("body");
  }

  /** One pass does not remove everything it targets: a tag split around another reappears. */
  lemma StripNotIdempotent()
    ensures StripHeadBody("<<body>body>") == "<body>"
    ensures StripHeadBody(StripHeadBody("<<body>body>")) == ""
  {
    BodyTag();
    LoneOpenIsPlain();
    SplitTagPieces();
    StripSkipsTag("<", "<body>", "body>");
    StripTagRest();
    StripTagFirst("<body>", "");
    assert "<body>" + "" == "<body>";
  }

  lemma SplitTagPieces()
    ensures "<" + "<body>" + "body>" == "<<body>body>"
    ensures "<" + "body>" == "<body>"
  {
  }

  lemma StripTagRest()
    ensures StripHeadBody("body>") == "body>"
  {
    var s := "body>";
    assert forall i :: 0 <= i < |s| ==> s[i] != '<';
    StripWithoutTags(s);
  }

  lemma BodyTag()
    ensures HeadBodyTag("<body>")
  {
    var t := "<body>";
    assert t[1..] == "body>";
  }

  lemma LoneOpenIsPlain()
    ensures Plain("<")
  {
    assert "<"[0..] == "<";
  }

  /** `$final`: the html, then a style block if the css is truthy, then a script block if the js is truthy. */
  function Assemble(html: string, css: string, js: string): string {
    html + (if Truthy(css) then "<style>" + css + "</style>" else "")
         + (if Truthy(js) then "<script>" + js + "</script>" else "")
  }

  /**
   * The document always starts with the html; it is the html alone exactly
   * when neither css nor js is truthy; and the css block, when present, comes
   * right after the html and before the script block.
   */
  lemma AssembleLayout(html: string, css: string, js: string)
    ensures Assemble(html, css, js)[..|html|] == html
    ensures Assemble(html, css, js) == html <==> !Truthy(css) && !Truthy(js)
    ensures Truthy(css) ==> Assemble(html, css, js)[|html|..|html| + |css| + 15] == "<style>" + css + "</style>"
    ensures Truthy(js) ==>
      var d := Assemble(html, css, js);
      d[|d| - |js| - 17..] == "<script>" + js + "</script>"
  {
    var d := Assemble(html, css, js);
    if Truthy(css) || Truthy(js) {
      assert |d| > |html|;
    }
  }

  /** The document `ajax_save` builds from the posted fields (`?? ''` for each). */
  function Document(h: Host, post: map<string, string>): string {
    var html := h.kses(StripHeadBody(h.unslash(if "html" in post then post["html"] else "")));
    var css := h.textarea(h.unslash(if "css" in post then post["css"] else ""));
    var js := h.textarea(h.unslash(if "js" in post then post["js"] else ""));
    Assemble(html, css, js)
  }

  // ---------------------------------------------------------------------
  // Stored values
  // ---------------------------------------------------------------------

  /** `(int) get_option( PAGE_OPTION )`: 0 when nothing (or no number) is stored. */
  function StoredPageId(options: map<string, Value>): int {
    if OptionPage in options && options[OptionPage].Number? then options[OptionPage].number else 0
  }

  /** `get_option( OPTION_NAME, '<p>Hello World</p>' )`: what the editor shows. */
  function EditorHtml(options: map<string, Value>): string {
    if OptionHtml in options && options[OptionHtml].Text? then options[OptionHtml].text else DefaultHtml
  }

  /** `$page_id && get_post( $page_id )` */
  predicate PageExists(s: State) {
    var id := StoredPageId(s.options);
    id != 0 && id >= 0 && id as nat in s.posts
  }

  function SandboxPage(content: string): Post {
    Post("page", "Sandbox Template", "draft", content, "lw-sandbox-template")
  }

  datatype Reply = JsonSuccess | JsonError | NonceFailed

  function SaveEffect(s: State, h: Host, isAdmin: bool, nonceOk: bool, post: map<string, string>): (State, Reply) {
    if !isAdmin then (s, JsonError)
    else if !nonceOk then (s, NonceFailed)
    else
      var d := Document(h, post);
      (PageUpsert(s.(options := s.options[OptionHtml := Text(d)]), d), JsonSuccess)
  }

  /** The page half of a save: the stored page gets the document, or a new page is inserted and its id stored. */
  function PageUpsert(s: State, d: string): State {
    if PageExists(s) then s.(posts := s.posts[StoredPageId(s.options) as nat := SandboxPage(d)])
    else s.(posts := s.posts[s.nextId := SandboxPage(d)], nextId := s.nextId + 1,
            options := s.options[OptionPage := Number(s.nextId)])
  }

  /**
   * A successful save stores the document as the editor's HTML and as the
   * sandbox page's content. An existing sandbox page is updated in place and
   * its id kept; otherwise a new page is inserted and its id stored. Either
   * way the stored id then names an existing page, so the next save updates.
   * Without the capability or the nonce nothing changes.
   */
  lemma SaveUpsertsPage(s: State, h: Host, isAdmin: bool, nonceOk: bool, post: map<string, string>)
    requires 0 < s.nextId  // auto-increment ids start at 1
    ensures var (r, reply) := SaveEffect(s, h, isAdmin, nonceOk, post);
      (reply == JsonSuccess <==> isAdmin && nonceOk)
      && (reply != JsonSuccess ==> r == s)
      && (reply == JsonSuccess ==>
            EditorHtml(r.options) == Document(h, post)
            && PageExists(r)
            && r.posts[StoredPageId(r.options) as nat] == SandboxPage(Document(h, post))
            && (PageExists(s) ==> StoredPageId(r.options) == StoredPageId(s.options) && r.nextId == s.nextId
                                  && r.posts.Keys == s.posts.Keys)
            && (!PageExists(s) ==> StoredPageId(r.options) == s.nextId && r.nextId == s.nextId + 1))
  {
  }

  /** The unslash, strip, sanitise and concatenate steps of `ajax_save`. */
  method BuildDocument(h: Host, post: map<string, string>) returns (final: string)
    ensures final == Document(h, post)
  {
    var html := h.unslash(if "html" in post then post["html"] else "");
    var css := h.unslash(if "css" in post then post["css"] else "");
    var js := h.unslash(if "js" in post then post["js"] else "");
    html := StripHeadBody(html);
    html := h.kses(html);
    css := h.textarea(css);
    js := h.textarea(js);
    final := html;
    if Truthy(css) {
      final := final + ("<style>" + css + "</style>");
    }
    if Truthy(js) {
      final := final + ("<script>" + js + "</script>");
    }
    assert final == Assemble(html, css, js);
  }

  method AjaxSave(site: Site, h: Host, isAdmin: bool, nonceOk: bool, post: map<string, string>) returns (reply: Reply)
    requires site.Valid()
    modifies site`options, site`posts, site`nextId
    ensures (site.Snap(), reply) == SaveEffect(old(site.Snap()), h, isAdmin, nonceOk, post)
    ensures site.Valid()
  {
    ghost var s0 := site.Snap();
    if !isAdmin {
      return JsonError;
    }
    if !nonceOk {
      return NonceFailed;
    }
    var final := BuildDocument(h, post);
    site.options := site.options[OptionHtml := Text(final)];
    assert site.Snap() == s0.(options := s0.options[OptionHtml := Text(final)]);
    UpsertPage(site, final);
    reply := JsonSuccess;
  }

  /** Updates the stored sandbox page when it exists; otherwise inserts one and stores its id. */
  method UpsertPage(site: Site, final: string)
    requires site.Valid()
    modifies site`options, site`posts, site`nextId
    ensures site.Snap() == PageUpsert(old(site.Snap()), final)
    ensures site.Valid()
  {
    ghost var s0 := site.Snap();
    var pageId := StoredPageId(site.options);
    if pageId != 0 && pageId >= 0 && pageId as nat in site.posts {
      assert PageExists(s0);
      site.UpdatePost(pageId as nat, SandboxPage(final));
      assert site.posts.Keys == s0.posts.Keys;
      assert site.Snap() == s0.(posts := s0.posts[pageId as nat := SandboxPage(final)]);
    } else {
      assert !PageExists(s0);
      var id := site.InsertPost(SandboxPage(final));
      site.options := site.options[OptionPage := Number(id)];
      assert site.Snap() == s0.(posts := s0.posts[s0.nextId := SandboxPage(final)], nextId := s0.nextId + 1,
                                options := s0.options[OptionPage := Number(s0.nextId)]);
    }
  }

  /** `add_meta_box`: only on the stored sandbox page (strict comparison of ids). */
  predicate ShowsMetaBox(options: map<string, Value>, postId: int) {
    postId == StoredPageId(options)
  }

  /** After a successful save, the meta box shows on the sandbox page, which holds the document. */
  lemma MetaBoxOnSavedPage(s: State, h: Host, post: map<string, string>)
    requires 0 < s.nextId
    ensures var (r, _) := SaveEffect(s, h, true, true, post);
      var id := StoredPageId(r.options);
      ShowsMetaBox(r.options, id) && id >= 0 && id as nat in r.posts && r.posts[id as nat].content == EditorHtml(r.options)
  {
    SaveUpsertsPage(s, h, true, true, post);
  }

  // ---------------------------------------------------------------------
  // enqueue_assets
  // ---------------------------------------------------------------------

  /** `strpos( $hay, $needle ) !== false` */
  predicate Contains(hay: string, needle: string) {
    exists i :: 0 <= i <= |hay| && OccursAt(hay, needle, i)
  }

  predicate OccursAt(hay: string, needle: string, i: int) {
    0 <= i && i + |needle| <= |hay| && hay[i..i + |needle|] == needle
  }

  /**
   * The script loads on the sandbox admin page, or on the page editor of the
   * stored sandbox page: `(int) $_GET['post']` must equal the stored id.
   */
  predicate ShouldEnqueue(options: map<string, Value>, hook: string, screenId: Option<string>, postParam: Option<string>) {
    Contains(hook, "lightwork-sandbox-editor")
    || (screenId == Some("page") && postParam.Some? && IntOf(postParam.value) == StoredPageId(options))
  }

  /** With no page stored, any non-numeric `post` parameter on the page screen loads the script, since it casts to 0. */
  lemma EnqueueWithoutStoredPage(options: map<string, Value>, hook: string)
    requires OptionPage !in options
    ensures ShouldEnqueue(options, hook, Some("page"), Some("abc"))
  {
    assert SkipSpace("abc") == "abc";
    assert DigitPrefix("abc") == 0;
  }

  /** First stored type with the slug and a non-empty field list. */
  function FirstWithFields(types: seq<ContentType>, slug: string): (r: Option<nat>)
    ensures r.Some? ==> r.value < |types| && types[r.value].slug == slug && types[r.value].acfFields != []
    ensures r.Some? ==> forall j :: 0 <= j < r.value ==> !(types[j].slug == slug && types[j].acfFields != [])
    ensures r.None? ==> forall j :: 0 <= j < |types| ==> !(types[j].slug == slug && types[j].acfFields != [])
  {
    if types == [] then None
    else if types[0].slug == slug && types[0].acfFields != [] then Some(0)
    else match FirstWithFields(types[1..], slug)
      case None => None
      case Some(i) => Some(i + 1)
  }

  function LabelKey(f: FieldDef): string {
    SanitizeKey(f.name.GetOr(""))
  }

  /** `sanitize_text_field( $f['label'] ) ?: $name` */
  function LabelOf(h: Host): FieldDef -> string {
    (f: FieldDef) => Elvis(h.text(f.caption.GetOr("")), LabelKey(f))
  }

  /** The `fields` map handed to the script. */
  function FieldLabels(h: Host, types: seq<ContentType>, slugParam: Option<string>): map<string, string> {
    if slugParam.None? then map[]
    else match FirstWithFields(types, SanitizeKey(slugParam.value))
      case None => map[]
      case Some(i) => PutAll(map[], types[i].acfFields, LabelKey, LabelOf(h))
  }

  /**
   * The map has one entry per sanitised field name of the first matching type
   * that has fields, holding the label of the last field of that name, or the
   * name when that label is falsy.
   */
  lemma FieldLabelsLookup(h: Host, types: seq<ContentType>, slug: string, k: string)
    requires FirstWithFields(types, SanitizeKey(slug)).Some?
    ensures var fs := types[FirstWithFields(types, SanitizeKey(slug)).value].acfFields;
      var m := FieldLabels(h, types, Some(slug));
      (k in m <==> exists i :: 0 <= i < |fs| && LabelKey(fs[i]) == k)
      && (k in m ==> var j := LastWithKey(fs, LabelKey, k).value;
                     m[k] == Elvis(h.text(fs[j].caption.GetOr("")), k))
  {
    var fs := types[FirstWithFields(types, SanitizeKey(slug)).value].acfFields;
    PutAllKeys(map[], fs, LabelKey, LabelOf(h));
    PutAllLookup(map[], fs, LabelKey, LabelOf(h), k);
  }

  /** The nested loops of `enqueue_assets` that build `$fields`. */
  method BuildFieldLabels(h: Host, types: seq<ContentType>, slugParam: Option<string>) returns (fields: map<string, string>)
    ensures fields == FieldLabels(h, types, slugParam)
  {
    fields := map[];
    if slugParam.None? {
      return;
    }
    var slug := SanitizeKey(slugParam.value);
    var i := 0;
    while i < |types|
      invariant 0 <= i <= |types|
      invariant forall j :: 0 <= j < i ==> !(types[j].slug == slug && types[j].acfFields != [])
      invariant fields == map[]
    {
      if types[i].slug == slug && types[i].acfFields != [] {
        assert FirstWithFields(types, slug) == Some(i);
        var fs := types[i].acfFields;
        var k := 0;
        while k < |fs|
          invariant 0 <= k <= |fs|
          invariant fields == PutAll(map[], fs[..k], LabelKey, LabelOf(h))
        {
          assert fs[..k + 1][..k] == fs[..k];
          var name := SanitizeKey(fs[k].name.GetOr(""));
          var caption := h.text(fs[k].caption.GetOr(""));
          fields := fields[name := Elvis(caption, name)];
          k := k + 1;
        }
        assert fs[..k] == fs;
        return;
      }
      i := i + 1;
    }
  }
}
