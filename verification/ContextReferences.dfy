/** src/context-references.ts: workspace references as editable text, in the delimited form. */
module ContextReferences {
  import opened Options

  datatype Kind = File | Directory

  datatype Attachment = Attachment(kind: Kind, path: string)

  /** An attachment read, and the index behind it. */
  datatype Parsed = Parsed(attachment: Attachment, end: nat)

  const MAX_PATH: nat := 4096
  const WINDOW: nat := 8196

  function Slashes(path: string): (r: string)
    ensures |r| == |path| && forall i :: 0 <= i < |path| ==> r[i] == if path[i] == '\\' then '/' else path[i]
  {
    seq(|path|, i requires 0 <= i < |path| => if path[i] == '\\' then '/' else path[i])
  }

  predicate StartsWithDot(path: string) {
    |path| >= 2 && path[0] == '.' && path[1] == '/'
  }

  function StripDots(path: string): (r: string)
    ensures !StartsWithDot(r) && |r| <= |path| && r == path[|path| - |r|..]
  {
    if StartsWithDot(path) then
      var r := StripDots(path[2..]);
      assert path[2..][|path| - 2 - |r|..] == path[|path| - |r|..];
      r
    else path
  }

  predicate EndsWithSlash(path: string) {
    path != "" && path[|path| - 1] == '/'
  }

  function StripSlashes(path: string): (r: string)
    ensures !EndsWithSlash(r) && r <= path
    ensures forall i :: |r| <= i < |path| ==> path[i] == '/'
  {
    if EndsWithSlash(path) then StripSlashes(path[..|path| - 1]) else path
  }

  function OrElse(path: string, otherwise: string): string {
    if path == "" then otherwise else path
  }

  function NormalizePath(path: string): string {
    OrElse(StripDots(Slashes(path)), ".")
  }

  predicate IsControl(c: char) {
    c as int < 32 || c as int == 127
  }

  /** A letter of the expression's class, which ignores case by Unicode folding: long s and the Kelvin sign too. */
  predicate IsSchemeLetter(c: char) {
    'a' <= c <= 'z' || 'A' <= c <= 'Z' || c == '\U{017F}' || c == '\U{212A}'
  }

  predicate IsSchemeChar(c: char) {
    IsSchemeLetter(c) || '0' <= c <= '9' || c == '+' || c == '.' || c == '-'
  }

  /** The first `n` characters are a scheme, and "://" follows. */
  predicate SchemeOf(path: string, n: nat) {
    && 1 <= n && n + 3 <= |path| && path[n..n + 3] == "://"
    && IsSchemeLetter(path[0]) && forall i :: 1 <= i < n ==> IsSchemeChar(path[i])
  }

  predicate HasScheme(path: string) {
    exists n: nat :: n <= |path| && SchemeOf(path, n)
  }

  /** `reference`: the attachment a path names, if it may be one. */
  function Reference(path: string): Option<Attachment> {
    if path == "" || |path| > MAX_PATH || exists i :: 0 <= i < |path| && IsControl(path[i]) then None
    else
      var normalized := NormalizePath(path);
      if HasScheme(normalized) then None
      else if EndsWithSlash(Slashes(path)) then Some(Attachment(Directory, OrElse(StripSlashes(normalized), "/")))
      else Some(Attachment(File, normalized))
  }

  predicate IsBrace(c: char) {
    c == '{' || c == '}'
  }

  function EscapeChar(c: char): (r: string)
    ensures 1 <= |r| <= 2
  {
    if IsBrace(c) then ['\\', c] else [c]
  }

  function Escape(path: string): (r: string)
    ensures |path| <= |r| <= 2 * |path|
  {
    if path == "" then "" else EscapeChar(path[0]) + Escape(path[1..])
  }

  function Canonical(path: string): string {
    OrElse(StripSlashes(NormalizePath(path)), "/")
  }

  /** The path between the braces before escaping. */
  function Content(a: Attachment): string {
    var path := Canonical(a.path);
    path + if a.kind.Directory? && !EndsWithSlash(path) then "/" else ""
  }

  function Format(a: Attachment): string {
    var path := Canonical(a.path);
    "@{" + Escape(path) + (if a.kind.Directory? && !EndsWithSlash(path) then "/" else "") + "}"
  }

  function Limit(source: string, start: nat): nat {
    if |source| < start + WINDOW then |source| else start + WINDOW
  }

  /** The scan of the braced form from an index on, with the path read so far. */
  function Scan(source: string, index: nat, limit: nat, path: string): Option<Parsed>
    requires limit <= |source|
    decreases |source| - index
  {
    if index >= limit then None
    else if source[index] == '}' then
      match Reference(path)
      case Some(attachment) => Some(Parsed(attachment, index + 1))
      case None => None
    else if source[index] == '{' || source[index] == '\n' || source[index] == '\r' then None
    else if source[index] == '\\' && index + 1 < |source| &&
        (IsBrace(source[index + 1]) || source[index + 1] == '\\') then
      Scan(source, index + 2, limit, path + [source[index + 1]])
    else Scan(source, index + 1, limit, path + [source[index]])
  }

  function ReadBraced(source: string, start: nat): Option<Parsed> {
    if start + 1 < |source| && source[start] == '@' && source[start + 1] == '{' then
      Scan(source, start + 2, Limit(source, start), "")
    else None
  }

  /** `readReference` on the braced form. */
  method ReadReference(source: string, start: nat) returns (r: Option<Parsed>)
    requires start + 1 < |source| && source[start] == '@' && source[start + 1] == '{'
    ensures r == ReadBraced(source, start)
  {
    hide Reference;
    var path := "";
    var index := start + 2;
    var limit := Limit(source, start);
    while index < limit
      invariant ReadBraced(source, start) == Scan(source, index, limit, path)
      decreases |source| - index
    {
      var c := source[index];
      if c == '}' {
        var attachment := Reference(path);
        return if attachment.Some? then Some(Parsed(attachment.value, index + 1)) else None;
      }
      if c == '{' || c == '\n' || c == '\r' {
        return None;
      }
      if c == '\\' && index + 1 < |source| && (IsBrace(source[index + 1]) || source[index + 1] == '\\') {
        index := index + 1;
        path := path + [source[index]];
      } else {
        path := path + [c];
      }
      index := index + 1;
    }
    return None;
  }

  /** What may stand between the braces: no backslash, no line end. */
  predicate Plain(path: string) {
    forall i :: 0 <= i < |path| ==> path[i] != '\\' && !IsControl(path[i])
  }

  /** `part` stands in the source from an index on. */
  predicate StandsAt(source: string, index: nat, part: string) {
    index + |part| <= |source| && source[index..index + |part|] == part
  }

  lemma ScanOne(source: string, index: nat, limit: nat, path: string, c: char)
    requires index < limit <= |source| && c != '\\' && !IsControl(c) && StandsAt(source, index, EscapeChar(c))
    ensures index + |EscapeChar(c)| <= |source|
    ensures Scan(source, index, limit, path) == Scan(source, index + |EscapeChar(c)|, limit, path + [c])
  {
    hide Reference;
    var here := source[index..index + |EscapeChar(c)|];
    assert source[index] == here[0];
    if IsBrace(c) {
      assert source[index + 1] == here[1];
    }
  }

  /** Escaped text followed by a closing brace is read back whole, if the window reaches that brace. */
  lemma {:induction false} ScanEscaped(source: string, index: nat, limit: nat, path: string, text: string)
    requires limit <= |source| && index + |Escape(text)| < limit
    requires Plain(text) && StandsAt(source, index, Escape(text) + "}")
    ensures Scan(source, index, limit, path) == Scan(source, index + |Escape(text)|, limit, path + text)
    decreases |text|
  {
    hide Scan, StandsAt, EscapeChar;
    if text == "" {
      assert path + text == path;
    } else {
      var c := text[0];
      assert Escape(text) + "}" == EscapeChar(c) + (Escape(text[1..]) + "}");
      StandsSplit(source, index, EscapeChar(c), Escape(text[1..]) + "}");
      ScanOne(source, index, limit, path, c);
      ScanEscaped(source, index + |EscapeChar(c)|, limit, path + [c], text[1..]);
      assert path + [c] + text[1..] == path + text;
    }
  }

  lemma StandsSplit(source: string, index: nat, first: string, second: string)
    requires StandsAt(source, index, first + second)
    ensures StandsAt(source, index, first) && StandsAt(source, index + |first|, second)
  {
    var whole := first + second;
    assert source[index..index + |first|] == whole[..|first|];
    assert source[index + |first|..index + |whole|] == whole[|first|..];
  }

  lemma {:induction false} EscapeAppendSlash(path: string)
    ensures Escape(path + "/") == Escape(path) + "/"
  {
    if path == "" {
      assert "" + "/" == "/";
    } else {
      assert (path + "/")[1..] == path[1..] + "/";
      EscapeAppendSlash(path[1..]);
    }
  }

  lemma FormatIsEscapedContent(a: Attachment)
    ensures Format(a) == "@{" + (Escape(Content(a)) + "}")
  {
    var path := Canonical(a.path);
    EscapeAppendSlash(path);
    hide Canonical, Escape;
    var escaped := Escape(path);
    assert "@{" + escaped + "/" + "}" == "@{" + ((escaped + "/") + "}");
    assert "@{" + escaped + "" + "}" == "@{" + (escaped + "}");
    assert path + "" == path;
  }

  /** A printed text between its braces, wherever it stands, is what the scan hands to `reference`. */
  lemma ReadBetweenBraces(source: string, start: nat, text: string)
    requires StandsAt(source, start, "@{" + (Escape(text) + "}")) && Plain(text) && 2 + |Escape(text)| < WINDOW
    ensures ReadBraced(source, start) ==
              match Reference(text)
              case Some(attachment) => Some(Parsed(attachment, start + |Escape(text)| + 3))
              case None => None
  {
    hide Reference, Escape, Plain;
    StandsSplit(source, start, "@{", Escape(text) + "}");
    assert source[start] == source[start..start + 2][0] && source[start + 1] == source[start..start + 2][1];
    ScanEscaped(source, start + 2, Limit(source, start), "", text);
    assert "" + text == text;
    StandsSplit(source, start + 2, Escape(text), "}");
    assert source[start + 2 + |Escape(text)|] == source[start + 2 + |Escape(text)|..start + 2 + |Escape(text)| + 1][0];
  }

  /** What `reference` asks of a path. */
  predicate Accepted(path: string) {
    Reference(path).Some?
  }

  lemma NormalizedIsPlain(path: string)
    requires path != "" && forall i :: 0 <= i < |path| ==> !IsControl(path[i])
    ensures Plain(NormalizePath(path)) && 1 <= |NormalizePath(path)| <= |path| && !StartsWithDot(NormalizePath(path))
  {
    var slashed := Slashes(path);
    var stripped := StripDots(slashed);
    hide Slashes, StripDots;
    forall i | 0 <= i < |stripped| ensures stripped[i] != '\\' && !IsControl(stripped[i]) {
      assert stripped[i] == slashed[|slashed| - |stripped| + i];
    }
  }

  lemma AcceptedFacts(path: string)
    requires Accepted(path)
    ensures path != "" && |path| <= MAX_PATH && !HasScheme(NormalizePath(path))
    ensures Plain(NormalizePath(path)) && 1 <= |NormalizePath(path)| <= |path| && !StartsWithDot(NormalizePath(path))
  {
    hide HasScheme, NormalizePath, Plain, StartsWithDot, StripSlashes;
    NormalizedIsPlain(path);
  }

  lemma PlainHasNoBackslash(path: string)
    requires Plain(path)
    ensures Slashes(path) == path
  {
  }

  lemma StrippedFacts(n: string)
    requires Plain(n) && n != "" && !StartsWithDot(n)
    ensures var c := OrElse(StripSlashes(n), "/");
            && 1 <= |c| <= |n| && Plain(c) && !StartsWithDot(c)
            && (c == "/" || (c <= n && !EndsWithSlash(c)))
  {
    var stripped := StripSlashes(n);
    hide StripSlashes;
    assert stripped == n[..|stripped|];
  }

  /** The canonical path of an accepted one: plain, its trailing slashes gone unless it is the root. */
  lemma CanonicalFacts(path: string)
    requires Accepted(path)
    ensures 1 <= |Canonical(path)| <= |path| && Plain(Canonical(path)) && !StartsWithDot(Canonical(path))
    ensures Canonical(path) == "/" || (Canonical(path) <= NormalizePath(path) && !EndsWithSlash(Canonical(path)))
  {
    AcceptedFacts(path);
    hide NormalizePath, Plain, StartsWithDot, StripSlashes, HasScheme, Accepted;
    StrippedFacts(NormalizePath(path));
  }

  /** A prefix of a path without a scheme has none, nor has it with a slash more unless it ended in one. */
  lemma PrefixHasNoScheme(path: string, whole: string)
    requires path <= whole && !HasScheme(whole) && !EndsWithSlash(path)
    ensures !HasScheme(path) && !HasScheme(path + "/")
  {
    forall n: nat | n <= |path| && SchemeOf(path, n) ensures SchemeOf(whole, n) {
      SchemeOfPrefix(path, whole, n);
    }
    forall n: nat | n <= |path| + 1 && SchemeOf(path + "/", n) ensures SchemeOf(path, n) {
      SchemeBeforeSlash(path, n);
    }
  }

  lemma SchemeBeforeSlash(path: string, n: nat)
    requires SchemeOf(path + "/", n) && !EndsWithSlash(path)
    ensures SchemeOf(path, n)
  {
    var longer := path + "/";
    assert longer[n + 1] == longer[n..n + 3][1] == '/';
    assert longer[|path| - 1] == path[|path| - 1];
    assert n + 3 <= |path|;
    assert longer[n..n + 3] == path[n..n + 3];
    forall i | 1 <= i < n ensures IsSchemeChar(path[i]) {
      assert longer[i] == path[i];
    }
  }

  lemma SchemeOfPrefix(path: string, whole: string, n: nat)
    requires path <= whole && SchemeOf(path, n)
    ensures n <= |whole| && SchemeOf(whole, n)
  {
    assert whole[n..n + 3] == path[n..n + 3];
  }

  /** What the printed form of an attachment refers to. */
  function Normalized(a: Attachment): Attachment {
    Attachment(a.kind, Canonical(a.path))
  }

  /** The attachments of accepted paths that do not survive printing: a file that is the root, and a
      directory whose path has no room left for its slash. */
  predicate Survives(a: Attachment) {
    && !(a.kind.File? && Canonical(a.path) == "/")
    && |Content(a)| <= MAX_PATH
  }

  /** A path with the slash that marks a directory. */
  function Marked(path: string, directory: bool): string {
    path + if directory && !EndsWithSlash(path) then "/" else ""
  }

  lemma MarkedFacts(path: string, directory: bool, whole: string)
    requires Plain(path) && path != "" && !StartsWithDot(path) && !HasScheme(whole)
    requires path == "/" || (path <= whole && !EndsWithSlash(path))
    ensures Plain(Marked(path, directory)) && !HasScheme(Marked(path, directory))
    ensures Marked(path, directory) == path || Marked(path, directory) == path + "/"
    ensures EndsWithSlash(Marked(path, directory)) <==> directory || path == "/"
    ensures StartsWithDot(Marked(path, directory)) ==> Marked(path, directory) == "./" && path == "."
  {
    assert path + "" == path;
    if path == "/" {
      ShortHasNoScheme(path);
    } else {
      PrefixHasNoScheme(path, whole);
    }
    hide HasScheme;
  }

  lemma ContentFacts(a: Attachment)
    requires Accepted(a.path)
    ensures Plain(Content(a)) && Content(a) != "" && !HasScheme(Content(a))
    ensures Content(a) == Canonical(a.path) || Content(a) == Canonical(a.path) + "/"
    ensures EndsWithSlash(Content(a)) <==> a.kind.Directory? || Canonical(a.path) == "/"
    ensures StartsWithDot(Content(a)) ==> Content(a) == "./" && Canonical(a.path) == "."
  {
    assert Content(a) == Marked(Canonical(a.path), a.kind.Directory?);
    CanonicalFacts(a.path);
    AcceptedFacts(a.path);
    hide *;
    MarkedFacts(Canonical(a.path), a.kind.Directory?, NormalizePath(a.path));
  }

  lemma ShortHasNoScheme(path: string)
    requires |path| <= 3
    ensures !HasScheme(path)
  {
  }

  /** Content keeps its form when normalized again, but for the dot that its slash would hide. */
  lemma ContentIsNormal(text: string)
    requires Plain(text) && text != "" && (StartsWithDot(text) ==> text == "./")
    ensures NormalizePath(text) == if text == "./" then "." else text
  {
    PlainHasNoBackslash(text);
    hide Slashes;
    if text == "./" {
      assert text[2..] == "";
    }
  }

  lemma StripsToCanonical(path: string, text: string)
    requires path == "/" || !EndsWithSlash(path)
    requires path != "" && (text == path || text == path + "/")
    ensures OrElse(StripSlashes(text), "/") == path
  {
    if text == path + "/" && path != "/" {
      assert text[..|text| - 1] == path;
    } else if path == "/" {
      assert "/"[..0] == "";
      assert ("/" + "/")[..1] == "/";
    }
  }

  /** What `reference` makes of plain text that names no scheme. */
  lemma ReferenceOfPlain(text: string, normal: string)
    requires Plain(text) && text != "" && NormalizePath(text) == normal && !HasScheme(normal)
    ensures Reference(text) ==
              if |text| > MAX_PATH then None
              else Some(if EndsWithSlash(text) then Attachment(Directory, OrElse(StripSlashes(normal), "/"))
                  else Attachment(File, normal))
  {
    PlainHasNoBackslash(text);
    hide Slashes, StripSlashes, HasScheme, NormalizePath;
  }

  /** Marked text of a canonical path refers to that path; its kind is lost only for a file at the root. */
  lemma MarkedRefersBack(path: string, directory: bool, text: string)
    requires path == "/" || !EndsWithSlash(path)
    requires text == path || text == path + "/"
    requires Plain(text) && path != "" && !HasScheme(text)
    requires EndsWithSlash(text) <==> directory || path == "/"
    requires StartsWithDot(text) ==> text == "./" && path == "."
    ensures Reference(text) == Some(Attachment(if directory then Directory else File, path)) <==>
              !(path == "/" && !directory) && |text| <= MAX_PATH
  {
    var normal := if text == "./" then "." else text;
    ShortHasNoScheme(".");
    hide HasScheme, StripSlashes, Plain;
    assert text == "./" ==> StartsWithDot(text);
    ContentIsNormal(text);
    hide NormalizePath, Reference;
    ReferenceOfPlain(text, normal);
    StripsToCanonical(path, if text == "./" then "." else text);
  }

  /** Reading the content gives the normalized attachment back, or its kind was not kept. */
  lemma ContentRefersBack(a: Attachment)
    requires Accepted(a.path)
    ensures Reference(Content(a)) == Some(Normalized(a)) <==> Survives(a)
  {
    ContentFacts(a);
    CanonicalFacts(a.path);
    hide Accepted, Canonical, Content, HasScheme, Reference, Plain, StartsWithDot;
    assert Canonical(a.path) != "";
    hide EndsWithSlash;
    MarkedRefersBack(Canonical(a.path), a.kind.Directory?, Content(a));
  }

  /** The window is wide enough for every accepted path, even if all of it is escaped braces. */
  lemma WindowSuffices(a: Attachment)
    requires Accepted(a.path)
    ensures 2 + |Escape(Content(a))| < WINDOW
  {
    hide Accepted, Canonical, Escape, EndsWithSlash, NormalizePath, Plain, StartsWithDot, HasScheme;
    var path := Canonical(a.path);
    CanonicalFacts(a.path);
    AcceptedFacts(a.path);
    EscapeAppendSlash(path);
    assert path + "" == path;
    assert Content(a) == path || Content(a) == path + "/";
  }

  /** Printing and reading back: wherever the printed form of an attachment with an accepted path stands,
      reading consumes just that form and returns the normalized attachment, exactly if it survives. */
  lemma PrintedReferencesReadBack(source: string, start: nat, a: Attachment)
    requires Accepted(a.path) && StandsAt(source, start, Format(a))
    ensures ReadBraced(source, start) == Some(Parsed(Normalized(a), start + |Format(a)|)) <==> Survives(a)
  {
    hide *;
    ContentFacts(a);
    ContentRefersBack(a);
    WindowSuffices(a);
    FormatIsEscapedContent(a);
    ReadBetweenBraces(source, start, Content(a));
    assert |Format(a)| == |Escape(Content(a))| + 3;
  }

  lemma NormalizedKeepsTheEnd(path: string)
    requires path != ""
    ensures EndsWithSlash(NormalizePath(path)) ==> EndsWithSlash(Slashes(path))
    ensures EndsWithSlash(Slashes(path)) ==> EndsWithSlash(NormalizePath(path)) || NormalizePath(path) == "."
  {
    var slashed := Slashes(path);
    var stripped := StripDots(slashed);
    hide Slashes, StripDots;
    assert stripped != "" ==> stripped[|stripped| - 1] == slashed[|slashed| - 1];
  }

  lemma OwnPathIsCanonical(path: string)
    requires Accepted(path)
    ensures Reference(path).value ==
              Attachment(if EndsWithSlash(Slashes(path)) then Directory else File, Canonical(path))
    ensures !EndsWithSlash(Slashes(path)) ==> Canonical(path) != "/"
    ensures EndsWithSlash(Slashes(path)) && Canonical(path) != "/" ==> |Canonical(path)| < MAX_PATH
  {
    NormalizedKeepsTheEnd(path);
    AcceptedFacts(path);
    hide HasScheme, NormalizePath, Slashes, Plain;
  }

  lemma CanonicalIsStable(path: string)
    requires Accepted(path)
    ensures Accepted(Canonical(path)) && Canonical(Canonical(path)) == Canonical(path)
  {
    var c := Canonical(path);
    CanonicalFacts(path);
    AcceptedFacts(path);
    assert c == Marked(c, false) by {
      assert c + "" == c;
    }
    MarkedFacts(c, false, NormalizePath(path));
    ContentIsNormal(c);
    ReferenceOfPlain(c, c);
    StripsToCanonical(c, c);
    assert c != "./";
    hide HasScheme, Reference, StripSlashes, StripDots, Slashes;
  }

  lemma CanonicalSurvives(a: Attachment)
    requires Canonical(a.path) == a.path && |a.path| <= MAX_PATH
    requires a.kind.File? ==> a.path != "/"
    requires a.kind.Directory? && a.path != "/" ==> |a.path| < MAX_PATH
    ensures Survives(a) && Normalized(a) == a
  {
    hide Canonical;
  }

  lemma OwnReferencesSurvive(path: string, a: Attachment)
    requires Accepted(path) && Reference(path) == Some(a)
    ensures Accepted(a.path) && Normalized(a) == a && Survives(a)
  {
    hide *;
    OwnPathIsCanonical(path);
    CanonicalIsStable(path);
    CanonicalFacts(path);
    AcceptedFacts(path);
    CanonicalSurvives(a);
  }

  /** Attachments that `reference` itself made always survive, unchanged. */
  lemma OwnReferencesReadBack(source: string, start: nat, path: string, a: Attachment)
    requires Reference(path) == Some(a) && StandsAt(source, start, Format(a))
    ensures ReadBraced(source, start) == Some(Parsed(a, start + |Format(a)|))
  {
    assert Accepted(path) by {
      hide Reference;
    }
    hide *;
    OwnReferencesSurvive(path, a);
    PrintedReferencesReadBack(source, start, a);
  }

  lemma WholeStandsAt(source: string)
    ensures StandsAt(source, 0, source)
  {
    assert source[0..0 + |source|] == source;
  }

  /** An attachment that does not survive is not read back from its own printed form. */
  lemma NotReadBack(a: Attachment)
    requires Accepted(a.path) && !Survives(a)
    ensures ReadBraced(Format(a), 0) != Some(Parsed(Normalized(a), 0 + |Format(a)|))
  {
    hide *;
    WholeStandsAt(Format(a));
    PrintedReferencesReadBack(Format(a), 0, a);
  }

  predicate IsRoot(path: string) {
    |path| == 1 && path[0] == '/'
  }

  lemma RootIsAccepted(root: string)
    requires IsRoot(root)
    ensures Accepted(root) && Canonical(root) == root == "/"
  {
    assert Slashes(root) == root && StripDots(root) == root;
    assert root[..0] == "" && StripSlashes(root) == StripSlashes("") == "";
    hide Slashes, StripSlashes, StripDots;
    ShortHasNoScheme(root);
  }

  /** The root given as a file: its printed form is that of a directory. */
  lemma RootFileIsNotReadBack(root: string)
    requires IsRoot(root)
    ensures Accepted(root) && Canonical(root) == "/"
    ensures ReadBraced(Format(Attachment(File, root)), 0)
         != Some(Parsed(Normalized(Attachment(File, root)), 0 + |Format(Attachment(File, root))|))
  {
    hide IsRoot, Accepted, Canonical, Content, Format, ReadBraced, Normalized;
    RootIsAccepted(root);
    NotReadBack(Attachment(File, root));
  }

  predicate Letters(path: string) {
    path != "" && forall i :: 0 <= i < |path| ==> path[i] == 'a'
  }

  lemma LettersAreNormal(path: string)
    requires Letters(path)
    ensures Plain(path) && NormalizePath(path) == path && StripSlashes(path) == path
  {
    assert Slashes(path) == path;
    hide Slashes;
  }

  lemma LettersNameNoScheme(path: string)
    requires Letters(path)
    ensures !HasScheme(path)
  {
    forall k: nat | k <= |path| ensures !SchemeOf(path, k) {
      assert k + 3 <= |path| ==> path[k..k + 3][0] == path[k] == 'a';
    }
  }

  lemma LettersAreAccepted(path: string)
    requires Letters(path) && |path| <= MAX_PATH
    ensures Accepted(path) && Canonical(path) == path
    ensures Content(Attachment(Directory, path)) == path + "/"
  {
    LettersAreNormal(path);
    LettersNameNoScheme(path);
    hide NormalizePath, HasScheme, Slashes, StripSlashes, Reference;
    ReferenceOfPlain(path, path);
    assert Accepted(path);
    assert Canonical(path) == path;
    hide Canonical;
  }

  lemma FullPathIsNotReadBack(path: string)
    requires Letters(path) && |path| == MAX_PATH
    ensures Accepted(path)
    ensures ReadBraced(Format(Attachment(Directory, path)), 0)
         != Some(Parsed(Normalized(Attachment(Directory, path)), 0 + |Format(Attachment(Directory, path))|))
  {
    var a := Attachment(Directory, path);
    hide Letters, Accepted, Canonical, Content, Format, ReadBraced, Normalized;
    LettersAreAccepted(path);
    assert |Content(a)| == MAX_PATH + 1;
    NotReadBack(a);
  }

  /** A directory whose path fills the limit: with its slash it is one character too long to be read back. */
  lemma FullDirectoryIsNotReadBack() returns (a: Attachment)
    ensures a.kind.Directory? && |a.path| == MAX_PATH && Accepted(a.path)
    ensures ReadBraced(Format(a), 0) != Some(Parsed(Normalized(a), 0 + |Format(a)|))
  {
    a := Attachment(Directory, seq(MAX_PATH, i => 'a'));
    assert Letters(a.path);
    hide *;
    FullPathIsNotReadBack(a.path);
  }

  // The same in the letters of the format.

  /** The path with every backslash turned into a slash. */
  ghost predicate SlashForm(path: string, slashed: string) {
    |slashed| == |path| && forall i :: 0 <= i < |path| ==> slashed[i] == if path[i] == '\\' then '/' else path[i]
  }

  /** The path behind every "./" in front of it; a single dot if nothing is left. */
  ghost predicate BehindDots(path: string, rest: string) {
    if |path| >= 2 && path[0] == '.' && path[1] == '/' then BehindDots(path[2..], rest)
    else rest == (if path == "" then "." else path)
  }

  lemma {:induction false} StrippedDots(path: string)
    ensures BehindDots(path, OrElse(StripDots(path), "."))
  {
    if StartsWithDot(path) {
      StrippedDots(path[2..]);
    }
  }

  /** A path in normal form: slashes forward, and no "./" in front. */
  lemma NormalExactly(path: string) returns (slashed: string)
    ensures SlashForm(path, slashed) && BehindDots(slashed, NormalizePath(path))
  {
    slashed := Slashes(path);
    StrippedDots(slashed);
    hide StripDots, Slashes;
    assert SlashForm(path, slashed);
  }

  /** "://" behind `n` characters, of which the first is a letter and the rest are letters, digits, plus signs, dots
      and hyphens; the long s and the Kelvin sign are letters there, being folded to s and k. */
  ghost predicate SchemeBehind(path: string, n: nat) {
    && 1 <= n && n + 3 <= |path| && path[n] == ':' && path[n + 1] == '/' && path[n + 2] == '/'
    && SchemeLetter(path[0])
    && forall i :: 1 <= i < n ==> SchemeLetter(path[i]) || '0' <= path[i] <= '9' || path[i] in {'+', '.', '-'}
  }

  ghost predicate SchemeLetter(c: char) {
    'a' <= c <= 'z' || 'A' <= c <= 'Z' || c in {'\U{017F}', '\U{212A}'}
  }

  lemma SchemeExactly(path: string)
    ensures HasScheme(path) <==> exists n :: SchemeBehind(path, n)
  {
    forall n: nat ensures SchemeBehind(path, n) <==> n <= |path| && SchemeOf(path, n) {
      if n + 3 <= |path| {
        assert path[n..n + 3] == [path[n], path[n + 1], path[n + 2]];
      }
    }
    hide SchemeBehind, SchemeOf;
  }

  /** Which paths name an attachment, and which: a directory if the path ends in a slash of either kind. */
  lemma ReferenceExactly(path: string)
    ensures Reference(path).None? <==>
      || path == "" || |path| > 4096
      || (exists i :: 0 <= i < |path| && ((path[i] as int) < 32 || path[i] as int == 127))
      || exists n :: SchemeBehind(NormalizePath(path), n)
    ensures Reference(path).Some? ==>
      var a, normal := Reference(path).value, NormalizePath(path);
      if path[|path| - 1] in {'/', '\\'}
      then a.kind == Directory && WithoutEndSlashes(normal, a.path)
      else a == Attachment(File, normal)
  {
    SchemeExactly(NormalizePath(path));
    StrippedExactly(NormalizePath(path));
    hide HasScheme, SchemeBehind, NormalizePath, StripSlashes, WithoutEndSlashes;
  }

  /** The path without the slashes at its end; a slash if nothing is left. */
  ghost predicate WithoutEndSlashes(path: string, r: string) {
    if forall i :: 0 <= i < |path| ==> path[i] == '/' then r == "/"
    else
      && |r| <= |path| && path[..|r|] == r && r != "" && r[|r| - 1] != '/'
      && forall i :: |r| <= i < |path| ==> path[i] == '/'
  }

  lemma StrippedExactly(path: string)
    ensures WithoutEndSlashes(path, OrElse(StripSlashes(path), "/"))
  {
    var r := StripSlashes(path);
    hide StripSlashes;
    assert r == path[..|r|];
    assert r != "" ==> path[|r| - 1] == r[|r| - 1] != '/';
  }

  /** What a brace becomes in a printed path; no other character is changed. */
  lemma EscapeSpelledOut(c: char, rest: string)
    ensures Escape("") == ""
    ensures Escape([c] + rest) == (if c in {'{', '}'} then ['\\', c] else [c]) + Escape(rest)
  {
    assert ([c] + rest)[1..] == rest;
  }

  /** A printed attachment: its normal path without slashes at the end, escaped, and one slash behind a directory
      other than the root. */
  lemma FormatExactly(a: Attachment) returns (path: string)
    ensures WithoutEndSlashes(NormalizePath(a.path), path)
    ensures path != ""
    ensures Format(a) ==
            "@{" + Escape(path) + (if a.kind == Directory && path[|path| - 1] != '/' then "/" else "") + "}"
  {
    path := Canonical(a.path);
    StrippedExactly(NormalizePath(a.path));
    hide NormalizePath, StripSlashes, Escape;
  }

  /** The text between the braces and the path it stands for: a backslash takes the place of a brace or backslash
      behind it, and otherwise stands for itself; raw braces and line ends may not occur. */
  ghost predicate Spells(raw: string, path: string)
    decreases |raw|
  {
    if raw == "" then path == ""
    else if raw[0] == '\\' && |raw| == 1 then false
    else if raw[0] == '\\' && raw[1] in {'{', '}', '\\'} then
      path != "" && path[0] == raw[1] && Spells(raw[2..], path[1..])
    else
      raw[0] !in {'{', '}', '\n', '\r'} && path != "" && path[0] == raw[0] && Spells(raw[1..], path[1..])
  }

  /** What stands from an index on spells a path up to a closing brace within the window. */
  ghost predicate SpelledAt(source: string, index: nat, limit: nat, raw: string, path: string) {
    index + |raw| < limit <= |source| && StandsAt(source, index, raw + "}") && Spells(raw, path)
  }

  /** Whatever spells a path is read as that path. */
  lemma {:induction false} SpelledIsScanned(source: string, index: nat, limit: nat, path: string, raw: string,
      more: string)
    requires SpelledAt(source, index, limit, raw, more)
    ensures Scan(source, index, limit, path) ==
            match Reference(path + more)
            case Some(attachment) => Some(Parsed(attachment, index + |raw| + 1))
            case None => None
    decreases |raw|
  {
    hide Reference;
    var whole := raw + "}";
    assert source[index] == source[index..index + |whole|][0] == whole[0];
    if raw == "" {
      assert path + more == path;
    } else {
      assert source[index + 1] == source[index..index + |whole|][1] == whole[1];
      var n := if raw[0] == '\\' && raw[1] in {'{', '}', '\\'} then 2 else 1;
      var c := more[0];
      assert whole == raw[..n] + (raw[n..] + "}");
      StandsSplit(source, index, raw[..n], raw[n..] + "}");
      SpelledIsScanned(source, index + n, limit, path + [c], raw[n..], more[1..]);
      assert path + [c] + more[1..] == path + more;
    }
  }

  /** And nothing else is read at all. */
  lemma {:induction false} ScannedIsSpelled(source: string, index: nat, limit: nat, path: string)
      returns (raw: string, more: string)
    requires limit <= |source| && Scan(source, index, limit, path).Some?
    ensures SpelledAt(source, index, limit, raw, more)
    decreases |source| - index
  {
    hide Reference;
    raw, more := "", "";
    if source[index] == '}' {
      assert source[index..index + 1] == "}" == "" + "}";
    } else {
      var escaped := source[index] == '\\' && index + 1 < |source| && source[index + 1] in {'{', '}', '\\'};
      var n := if escaped then 2 else 1;
      var c := source[index + n - 1];
      var rest, behind := ScannedIsSpelled(source, index + n, limit, path + [c]);
      raw, more := source[index..index + n] + rest, [c] + behind;
      JoinedStands(source, index, n, rest);
      assert raw[n..] == rest && more[1..] == behind;
      if |raw| == 1 {
        assert source[index + 1] == source[index + 1..index + 2][0] == '}';
      } else if !escaped {
        assert raw[1] == rest[0] == source[index + 1..index + 1 + |rest| + 1][0] == source[index + 1];
      }
    }
  }

  lemma JoinedStands(source: string, index: nat, n: nat, rest: string)
    requires StandsAt(source, index + n, rest + "}")
    ensures StandsAt(source, index, (source[index..index + n] + rest) + "}")
  {
    var front := source[index..index + n];
    assert source[index..index + |(front + rest) + "}"|] == front + source[index + n..index + n + |rest + "}"|];
    assert (front + rest) + "}" == front + (rest + "}");
  }

  /** A braced reference is read exactly if "@{", a spelled path that names an attachment, and a closing brace stand
      there, all within 8196 characters. */
  lemma ReadExactly(source: string, start: nat, a: Attachment, end: nat)
    ensures ReadBraced(source, start) == Some(Parsed(a, end)) <==>
            exists raw, path :: ReadsAs(source, start, a, end, raw, path)
  {
    hide Scan, Reference, Spells;
    var limit := Limit(source, start);
    if ReadBraced(source, start) == Some(Parsed(a, end)) {
      var raw, path := ScannedIsSpelled(source, start + 2, limit, "");
      SpelledIsScanned(source, start + 2, limit, "", raw, path);
      assert "" + path == path;
      assert source[start..start + 2] == "@{";
      assert ReadsAs(source, start, a, end, raw, path);
    }
    if exists raw, path :: ReadsAs(source, start, a, end, raw, path) {
      var raw, path :| ReadsAs(source, start, a, end, raw, path);
      assert source[start] == source[start..start + 2][0] && source[start + 1] == source[start..start + 2][1];
      SpelledIsScanned(source, start + 2, limit, "", raw, path);
      assert "" + path == path;
    }
  }

  ghost predicate ReadsAs(source: string, start: nat, a: Attachment, end: nat, raw: string, path: string) {
    && StandsAt(source, start, "@{") && StandsAt(source, start + 2, raw + "}")
    && |raw| + 2 < 8196 && end == start + |raw| + 3
    && Spells(raw, path) && Reference(path) == Some(a)
  }
}
