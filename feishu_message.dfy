/**
 * The chat bot's outgoing messages: plain text, images, files, and rich-text
 * posts. A post has a title and lines of tags (text, links, mentions, images),
 * and is put together by two builders: one for the post, one for the line
 * being written.
 */
module FeishuMessage {
  import opened Wrappers

  //---- Messages --------------------------------------------------------------------------

  datatype TextMessage = TextMessage(text: string)
  datatype PostMessage = PostMessage(zhCn: PostLang)
  datatype ImageMessage = ImageMessage(imageKey: string)
  datatype FileMessage = FileMessage(fileKey: string)

  datatype Message =
    | Text(textMessage: TextMessage)
    | Post(postMessage: PostMessage)
    | Image(imageMessage: ImageMessage)
    | File(fileMessage: FileMessage)

  /** The message type name the chat service expects. */
  function Typ(m: Message): string
  {
    match m
    case Text(_) => "text"
    case Post(_) => "post"
    case Image(_) => "image"
    case File(_) => "file"
  }

  /** The type name tells the kind of message apart: two messages share it exactly when they are of one kind. */
  lemma TypIdentifiesKind(a: Message, b: Message)
    ensures Typ(a) == Typ(b) <==> (a.Text? && b.Text?) || (a.Post? && b.Post?) || (a.Image? && b.Image?) || (a.File? && b.File?)
  {
    assert "text"[0] != "post"[0] && "text"[0] != "image"[0] && "text"[0] != "file"[0];
    assert "post"[0] != "image"[0] && "post"[0] != "file"[0] && "image"[0] != "file"[0];
  }

  function NewText(text: string): (m: Message)
    ensures m.Text? && m.textMessage.text == text && Typ(m) == "text"
  {
    Text(TextMessage(text))
  }

  function NewImage(imageKey: string): (m: Message)
    ensures m.Image? && m.imageMessage.imageKey == imageKey && Typ(m) == "image"
  {
    Image(ImageMessage(imageKey))
  }

  function NewFile(fileKey: string): (m: Message)
    ensures m.File? && m.fileMessage.fileKey == fileKey && Typ(m) == "file"
  {
    File(FileMessage(fileKey))
  }

  function NewPost(zhCn: PostLang): (m: Message)
    ensures m.Post? && m.postMessage.zhCn == zhCn && Typ(m) == "post"
  {
    Post(PostMessage(zhCn))
  }

  //---- Posts -----------------------------------------------------------------------------

  /** One element of a post line. Image sizes are `usize` in the source; only their values matter here. */
  datatype PostTag =
    | TextTag(text: string, unEscape: bool)
    | A(text: string, href: string)
    | At(userId: string, userName: Option<string>)
    | Img(imageKey: string, height: nat, width: nat)

  type PostLine = seq<PostTag>

  datatype PostLang = PostLang(title: string, content: seq<PostLine>)

  //---- What a sequence of builder calls makes --------------------------------------------

  /** A call on a line builder: add a tag to the current line, or start a new line. */
  datatype Edit = Add(tag: PostTag) | Break

  /** The post a line builder would finish with, after one more call. */
  function Apply(p: PostLang, e: Edit): (q: PostLang)
    requires p.content != []
    ensures q.title == p.title && q.content != []
  {
    match e
    case Add(tag) => p.(content := p.content[..|p.content| - 1] + [p.content[|p.content| - 1] + [tag]])
    case Break => p.(content := p.content + [[]])
  }

  /** The post made by `builder().title(title).new_line()` and then `edits`, once finished. */
  function Compose(title: string, edits: seq<Edit>): (p: PostLang)
    ensures p.title == title && p.content != []
  {
    if edits == [] then PostLang(title, [[]])
    else Apply(Compose(title, edits[..|edits| - 1]), edits[|edits| - 1])
  }

  function Breaks(edits: seq<Edit>): nat
  {
    if edits == [] then 0 else Breaks(edits[..|edits| - 1]) + (if edits[|edits| - 1].Break? then 1 else 0)
  }

  function Tags(edits: seq<Edit>): seq<PostTag>
  {
    if edits == [] then []
    else Tags(edits[..|edits| - 1]) + (if edits[|edits| - 1].Add? then [edits[|edits| - 1].tag] else [])
  }

  function Flatten(lines: seq<PostLine>): seq<PostTag>
  {
    if lines == [] then [] else Flatten(lines[..|lines| - 1]) + lines[|lines| - 1]
  }

  lemma FlattenAppend(lines: seq<PostLine>, line: PostLine)
    ensures Flatten(lines + [line]) == Flatten(lines) + line
  {
    assert (lines + [line])[..|lines|] == lines;
  }

  /**
   * A post has one line more than there were breaks, and its tags, read line
   * by line, are the added tags in the order they were added.
   */
  lemma {:induction false} ComposeShape(title: string, edits: seq<Edit>)
    ensures |Compose(title, edits).content| == Breaks(edits) + 1
    ensures Flatten(Compose(title, edits).content) == Tags(edits)
  {
    if edits == [] {
      assert Flatten([[]]) == Flatten([]) + [];
    } else {
      var prefix, e := edits[..|edits| - 1], edits[|edits| - 1];
      ComposeShape(title, prefix);
      var p := Compose(title, prefix);
      var n := |p.content|;
      match e {
        case Add(tag) =>
          assert p.content == p.content[..n - 1] + [p.content[n - 1]];
          FlattenAppend(p.content[..n - 1], p.content[n - 1]);
          FlattenAppend(p.content[..n - 1], p.content[n - 1] + [tag]);
        case Break =>
          FlattenAppend(p.content, []);
      }
    }
  }

  //---- The builders ----------------------------------------------------------------------

  /** `PostLang::builder()` and what it holds until a line is started. */
  class PostLangBuilder {
    var title: string
    var content: seq<PostLine>

    /** `PostLang::builder`: no title, no lines. */
    constructor ()
      ensures title == "" && content == []
    {
      title := "";
      content := [];
    }

    /** `title` replaces the title and leaves the lines. */
    method Title(title: string)
      modifies this
      ensures this.title == title && content == old(content)
    {
      this.title := title;
    }

    /** `new_line`: a line builder over this post, with an empty current line. */
    method NewLine() returns (b: PostLineBuilder)
      ensures fresh(b) && b.langBuilder == this && b.line == []
      ensures b.Pending() == PostLang(title, content + [[]])
    {
      b := new PostLineBuilder(this);
    }

    /** `finish`: the title and the lines so far. */
    method Finish() returns (p: PostLang)
      ensures p == PostLang(title, content)
    {
      p := PostLang(title, content);
    }
  }

  /** The line being written, and the post it belongs to. */
  class PostLineBuilder {
    var line: PostLine
    const langBuilder: PostLangBuilder

    constructor (lang: PostLangBuilder)
      ensures langBuilder == lang && line == []
    {
      langBuilder := lang;
      line := [];
    }

    /** The post `finish` would return now. */
    function Pending(): (p: PostLang)
      reads this, langBuilder
      ensures p.content != []
    {
      PostLang(langBuilder.title, langBuilder.content + [line])
    }

    /** `text` appends one text tag to the current line. */
    method Text(text: string, unEscape: bool)
      modifies this
      ensures line == old(line) + [TextTag(text, unEscape)]
      ensures Pending() == Apply(old(Pending()), Add(TextTag(text, unEscape)))
    {
      line := line + [TextTag(text, unEscape)];
      AddToPending(old(Pending()), TextTag(text, unEscape));
    }

    /** `a` appends one link to the current line. */
    method A(text: string, href: string)
      modifies this
      ensures line == old(line) + [PostTag.A(text, href)]
      ensures Pending() == Apply(old(Pending()), Add(PostTag.A(text, href)))
    {
      line := line + [PostTag.A(text, href)];
      AddToPending(old(Pending()), PostTag.A(text, href));
    }

    /** `at` appends one mention to the current line. */
    method At(userId: string, userName: Option<string>)
      modifies this
      ensures line == old(line) + [PostTag.At(userId, userName)]
      ensures Pending() == Apply(old(Pending()), Add(PostTag.At(userId, userName)))
    {
      line := line + [PostTag.At(userId, userName)];
      AddToPending(old(Pending()), PostTag.At(userId, userName));
    }

    /** `img` appends one image to the current line; the height comes before the width. */
    method Img(imageKey: string, height: nat, width: nat)
      modifies this
      ensures line == old(line) + [PostTag.Img(imageKey, height, width)]
      ensures Pending() == Apply(old(Pending()), Add(PostTag.Img(imageKey, height, width)))
    {
      line := line + [PostTag.Img(imageKey, height, width)];
      AddToPending(old(Pending()), PostTag.Img(imageKey, height, width));
    }

    /** `new_line` closes the current line into the post and goes on with an empty one. */
    method NewLine() returns (next: PostLineBuilder)
      modifies langBuilder
      ensures fresh(next) && next.langBuilder == langBuilder && next.line == []
      ensures langBuilder.content == old(langBuilder.content) + [line] && langBuilder.title == old(langBuilder.title)
      ensures next.Pending() == Apply(old(Pending()), Break)
    {
      langBuilder.content := langBuilder.content + [line];
      next := new PostLineBuilder(langBuilder);
    }

    /** `finish` closes the current line into the post and returns it. */
    method Finish() returns (p: PostLang)
      modifies langBuilder
      ensures p == PostLang(old(langBuilder.title), old(langBuilder.content) + [line])
      ensures p == old(Pending())
    {
      langBuilder.content := langBuilder.content + [line];
      p := langBuilder.Finish();
    }
  }

  /** Adding a tag to the pending post is adding it to the current line. */
  lemma AddToPending(p: PostLang, tag: PostTag)
    requires p.content != []
    ensures Apply(p, Add(tag)) == PostLang(p.title, p.content[..|p.content| - 1] + [p.content[|p.content| - 1] + [tag]])
  {
  }

  /** The first line of the message tests' post: a link, a mention and an image. */
  method TestFirstLine(post: PostLangBuilder) returns (first: PostLineBuilder)
    ensures fresh(first) && first.langBuilder == post
    ensures first.line == [PostTag.A("link", "href"), PostTag.At("user_id", Some("user_name")), PostTag.Img("image_key", 200, 300)]
  {
    first := post.NewLine();
    first.A("link", "href");
    first.At("user_id", Some("user_name"));
    first.Img("image_key", 200, 300);
  }

  /** The post of the message tests: a title, a line with a link, a mention and an image, then a line of text. */
  method TestPost() returns (p: PostLang)
    ensures p == PostLang("title", [[PostTag.A("link", "href"), PostTag.At("user_id", Some("user_name")),
                                      PostTag.Img("image_key", 200, 300)],
                                     [TextTag("text", false)]])
  {
    var post := new PostLangBuilder();
    post.Title("title");
    var first := TestFirstLine(post);
    assert post.title == "title" && post.content == [];
    var second := first.NewLine();
    second.Text("text", false);
    assert second.langBuilder == post && post.title == "title" && post.content == [first.line];
    var firstLine, secondLine := first.line, second.line;
    assert secondLine == [TextTag("text", false)];
    p := second.Finish();
    assert p == PostLang("title", [firstLine, secondLine]);
  }
}
