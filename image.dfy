/**
 * The image command (commands/image.js): the words after the command are joined
 * back into a link, cleaned of surrounding angle brackets, zero-width spaces and
 * repeated whitespace, and accepted only when it starts with `http://` or
 * `https://` in any letter case. An accepted link is downloaded, converted to JPEG
 * (to PNG when JPEG fails) and sent back with a caption; any failure on the way
 * is answered with one error text.
 */
module Image {
  import opened Text

  const ZeroWidthSpace: char := '\U{200B}'

  const UsageText: string := "⚠️ الصيغة الصحيحة: `!صورة <رابط_الصورة>` (يجب أن يبدأ بـ http أو https)"
  const ErrorText: string := "❌ لم أتمكن من تحميل الصورة. تأكد أن الرابط مباشر وقابل للوصول."
  const Caption: string := "🖼️ هذه هي الصورة المطلوبة"

  /** Remove a leading run of `c`: the `^c+` alternative of a global replace. */
  function DropLeading(s: string, c: char): (r: string)
    ensures |r| <= |s| && r == s[|s| - |r|..]
    ensures forall i :: 0 <= i < |s| - |r| ==> s[i] == c
    ensures r == [] || r[0] != c
  {
    if s != [] && s[0] == c then DropLeading(s[1..], c) else s
  }

  /** Remove a trailing run of `c`: the `c+$` alternative of a global replace. */
  function DropTrailing(s: string, c: char): (r: string)
    ensures |r| <= |s| && r == s[..|r|]
    ensures forall i :: |r| <= i < |s| ==> s[i] == c
    ensures r == [] || r[|r| - 1] != c
  {
    if s != [] && s[|s| - 1] == c then DropTrailing(s[..|s| - 1], c) else s
  }

  /**
   * `replace(/^<+|>+$/g, "")`. The matches are found left to right: first the
   * leading `<` run, then the `>` run that reaches the end, which may not overlap
   * the first; a text made only of `<` or only of `>` becomes empty.
   */
  function StripAngles(s: string): string
  {
    DropTrailing(DropLeading(s, '<'), '>')
  }

  /**
   * `cleanUrl`: trim, strip the angle brackets, delete every zero-width space and
   * turn every whitespace run into one space.
   */
  function CleanUrl(u: string): (r: string)
    ensures ZeroWidthSpace !in r
    ensures NoDoubleSpace(r)
    ensures |r| <= |u|
  {
    var s := RemoveAll(StripAngles(Trim(u)), ZeroWidthSpace);
    RemoveAllShorter(StripAngles(Trim(u)), ZeroWidthSpace);
    CollapseSpacesNoDouble(s);
    CollapseSpaces(s)
  }

  lemma {:induction false} RemoveAllShorter(s: string, x: char)
    ensures |RemoveAll(s, x)| <= |s|
    ensures x !in s ==> RemoveAll(s, x) == s
    decreases |s|
  {
    if s != [] {
      RemoveAllShorter(s[1..], x);
    }
  }

  /** Collapsing a text without whitespace changes nothing. */
  lemma {:induction false} CollapseWithoutSpaces(s: string)
    requires NoSpaces(s)
    ensures CollapseSpaces(s) == s
    decreases |s|
  {
    if s != [] {
      assert !IsSpace(s[0]);
      assert NoSpaces(s[1..]) by {
        forall k | 0 <= k < |s[1..]| ensures !IsSpace(s[1..][k]) {
          assert s[1..][k] == s[k + 1];
        }
      }
      CollapseWithoutSpaces(s[1..]);
    }
  }

  /** `p` is a prefix of `s` ignoring the letter case; `p` is written in lower case. */
  predicate StartsWithIgnoringCase(s: string, p: string)
  {
    |p| <= |s| && Lower(s[..|p|]) == p
  }

  /** `/^https?:\/\//i`. */
  predicate HasHttpScheme(url: string)
  {
    StartsWithIgnoringCase(url, "http://") || StartsWithIgnoringCase(url, "https://")
  }

  /** The guard of the command: a non-empty link with an HTTP scheme. */
  predicate Accepted(url: string)
  {
    url != "" && HasHttpScheme(url)
  }

  datatype Format = Jpeg | Png

  /** The steps of one run, in order. */
  datatype ImageAction =
    | Fetch(url: string)
    | Convert(format: Format)
    | SendImage(format: Format, caption: string)
    | SendText(text: string)

  /**
   * How the outside world answers: whether the download succeeded with an OK
   * status and a readable body, whether each conversion succeeded, and whether
   * the image message went out.
   */
  datatype ImageEnv = ImageEnv(downloaded: bool, jpegOk: bool, pngOk: bool, imageSent: bool)

  /** Sending the converted image; a failed send is answered with the error text. */
  function SendConverted(format: Format, env: ImageEnv): seq<ImageAction>
  {
    [SendImage(format, Caption)] + (if env.imageSent then [] else [SendText(ErrorText)])
  }

  /** The `try` block and its `catch`, once the link is accepted. */
  function Pipeline(url: string, env: ImageEnv): (acts: seq<ImageAction>)
    ensures |acts| >= 2 && acts[0] == Fetch(url)
    ensures IsSend(acts[|acts| - 1])
  {
    [Fetch(url)] +
    if !env.downloaded then [SendText(ErrorText)]
    else
      [Convert(Jpeg)] +
      if env.jpegOk then SendConverted(Jpeg, env)
      else [Convert(Png)] + (if env.pngOk then SendConverted(Png, env) else [SendText(ErrorText)])
  }

  /** `run`: a missing argument list is the empty one. */
  function Run(args: seq<string>, env: ImageEnv): (acts: seq<ImageAction>)
    ensures acts != [] && IsSend(acts[|acts| - 1])
  {
    Answer(CleanUrl(Join(args, " ")), env)
  }

  /** The guard on the cleaned link: the usage text, or the pipeline. */
  function Answer(url: string, env: ImageEnv): (acts: seq<ImageAction>)
    ensures acts != [] && IsSend(acts[|acts| - 1])
  {
    if !Accepted(url) then [SendText(UsageText)] else Pipeline(url, env)
  }

  predicate IsSend(a: ImageAction)
  {
    a.SendImage? || a.SendText?
  }

  /** A rejected link gets the usage text and nothing is downloaded; an accepted one is downloaded first. */
  lemma UsageRule(args: seq<string>, env: ImageEnv)
    ensures var acts := Run(args, env);
      && (acts == [SendText(UsageText)] <==> !Accepted(CleanUrl(Join(args, " "))))
      && ((exists i :: 0 <= i < |acts| && acts[i].Fetch?) <==> Accepted(CleanUrl(Join(args, " "))))
  {
    AnswerRule(CleanUrl(Join(args, " ")), env);
  }

  lemma AnswerRule(url: string, env: ImageEnv)
    ensures var acts := Answer(url, env);
      && (acts == [SendText(UsageText)] <==> !Accepted(url))
      && ((exists i :: 0 <= i < |acts| && acts[i].Fetch?) <==> Accepted(url))
  {
    if Accepted(url) {
      assert Answer(url, env)[0] == Fetch(url);
    }
  }

  /** Every accepted run downloads exactly once, first, the cleaned link. */
  lemma FetchFirstAndOnce(url: string, env: ImageEnv)
    ensures var acts := Pipeline(url, env);
      acts[0] == Fetch(url) && forall i :: 1 <= i < |acts| ==> !acts[i].Fetch?
  {
  }

  /** PNG is tried exactly when the download worked and the JPEG conversion failed. */
  lemma PngOnlyAfterJpegFails(url: string, env: ImageEnv)
    ensures Convert(Png) in Pipeline(url, env) <==> env.downloaded && !env.jpegOk
  {
  }

  /**
   * The image goes out at most once, as JPEG unless JPEG failed, and only after a
   * successful download and a successful conversion.
   */
  lemma ImageSentOnce(url: string, env: ImageEnv)
    ensures var acts := Pipeline(url, env);
      && (forall i, j :: 0 <= i < j < |acts| && acts[i].SendImage? ==> !acts[j].SendImage?)
      && ((exists i :: 0 <= i < |acts| && acts[i].SendImage?) <==> env.downloaded && (env.jpegOk || env.pngOk))
      && (forall i :: 0 <= i < |acts| && acts[i].SendImage? ==>
            acts[i] == SendImage(if env.jpegOk then Jpeg else Png, Caption))
  {
    var acts := Pipeline(url, env);
    if env.downloaded && (env.jpegOk || env.pngOk) {
      var k := if env.jpegOk then 2 else 3;
      assert acts[k].SendImage?;
    }
  }

  /**
   * The error text is sent exactly when an accepted link fails somewhere: the
   * download, both conversions, or the image message itself; it is always the
   * last action, and nothing follows it.
   */
  lemma ErrorRule(url: string, env: ImageEnv)
    ensures var acts := Pipeline(url, env);
      && (SendText(ErrorText) in acts <==> !env.downloaded || (!env.jpegOk && !env.pngOk) || !env.imageSent)
      && (SendText(ErrorText) in acts ==> acts[|acts| - 1] == SendText(ErrorText))
      && (forall i :: 0 <= i < |acts| - 1 ==> acts[i] != SendText(ErrorText))
  {
  }

  /** Without any failure the run ends with the delivered image and sends nothing else. */
  lemma SuccessIsOneSend(url: string, env: ImageEnv)
    requires env.downloaded && (env.jpegOk || env.pngOk) && env.imageSent
    ensures var acts := Pipeline(url, env);
      && acts[|acts| - 1].SendImage?
      && forall i :: 0 <= i < |acts| - 1 ==> !IsSend(acts[i])
  {
  }

  lemma DropLeadingCons(c: char, v: string)
    ensures DropLeading([c] + v, c) == DropLeading(v, c)
  {
    assert ([c] + v)[1..] == v;
  }

  lemma DropTrailingSnoc(v: string, c: char)
    ensures DropTrailing(v + [c], c) == DropTrailing(v, c)
  {
    assert (v + [c])[..|v|] == v;
  }

  /** One pair of angle brackets around a text that neither starts with `<` nor ends with `>` is stripped. */
  lemma StripOnePair(url: string)
    requires url != "" && url[0] != '<' && url[|url| - 1] != '>'
    ensures StripAngles(['<'] + (url + ['>'])) == url
    ensures StripAngles(url) == url
  {
    var v := url + ['>'];
    DropLeadingCons('<', v);
    assert v[0] == url[0];
    assert DropLeading(v, '<') == v;
    DropTrailingSnoc(url, '>');
  }

  /** The sends among the actions, in order. */
  function Sends(acts: seq<ImageAction>): seq<ImageAction>
  {
    if acts == [] then [] else (if IsSend(acts[0]) then [acts[0]] else []) + Sends(acts[1..])
  }

  lemma SendsCons(a: ImageAction, rest: seq<ImageAction>)
    ensures Sends([a] + rest) == (if IsSend(a) then [a] else []) + Sends(rest)
  {
    assert ([a] + rest)[0] == a;
    assert ([a] + rest)[1..] == rest;
  }

  lemma ActionsAssoc(a: seq<ImageAction>, b: seq<ImageAction>, c: seq<ImageAction>)
    ensures a + (b + c) == (a + b) + c
  {
  }

  lemma {:induction false} SendsAppend(xs: seq<ImageAction>, ys: seq<ImageAction>)
    ensures Sends(xs + ys) == Sends(xs) + Sends(ys)
    decreases |xs|
  {
    if xs == [] {
      assert xs + ys == ys;
    } else {
      var a, rest := xs[0], xs[1..];
      assert xs == [a] + rest;
      assert xs + ys == [a] + (rest + ys);
      SendsAppend(rest, ys);
      SendsCons(a, rest + ys);
      SendsCons(a, rest);
      ActionsAssoc(if IsSend(a) then [a] else [], Sends(rest), Sends(ys));
    }
  }

  /**
   * Every run sends exactly one message, the usage text, the error text or the
   * image, except when the image message itself fails: then the error text follows
   * the failed image.
   */
  lemma SendCount(args: seq<string>, env: ImageEnv)
    ensures var url := CleanUrl(Join(args, " "));
      |Sends(Run(args, env))| ==
        if Accepted(url) && env.downloaded && (env.jpegOk || env.pngOk) && !env.imageSent then 2 else 1
  {
    var url := CleanUrl(Join(args, " "));
    if Accepted(url) {
      PipelineSendCount(url, env);
    } else {
      assert Run(args, env) == [SendText(UsageText)];
      assert Sends([SendText(UsageText)]) == [SendText(UsageText)];
    }
  }

  lemma PipelineSendCount(url: string, env: ImageEnv)
    ensures |Sends(Pipeline(url, env))| ==
      if env.downloaded && (env.jpegOk || env.pngOk) && !env.imageSent then 2 else 1
  {
    PipelineSends(url, env);
    if !env.downloaded || (!env.jpegOk && !env.pngOk) {
      SendsCons(SendText(ErrorText), []);
      assert [SendText(ErrorText)] + [] == [SendText(ErrorText)];
    } else {
      ConvertedSends(if env.jpegOk then Jpeg else Png, env);
    }
  }

  /** Only what follows the download and the conversions is sent. */
  lemma PipelineSends(url: string, env: ImageEnv)
    ensures Sends(Pipeline(url, env)) ==
      if !env.downloaded || (!env.jpegOk && !env.pngOk) then Sends([SendText(ErrorText)])
      else Sends(SendConverted(if env.jpegOk then Jpeg else Png, env))
  {
    var err := [SendText(ErrorText)];
    var afterPng := if env.pngOk then SendConverted(Png, env) else err;
    var afterJpeg := if env.jpegOk then SendConverted(Jpeg, env) else [Convert(Png)] + afterPng;
    var afterFetch := if !env.downloaded then err else [Convert(Jpeg)] + afterJpeg;
    assert Pipeline(url, env) == [Fetch(url)] + afterFetch;
    SendsCons(Fetch(url), afterFetch);
    SendsCons(Convert(Jpeg), afterJpeg);
    SendsCons(Convert(Png), afterPng);
  }

  lemma ConvertedSends(format: Format, env: ImageEnv)
    ensures |Sends(SendConverted(format, env))| == if env.imageSent then 1 else 2
  {
    var tail := if env.imageSent then [] else [SendText(ErrorText)];
    SendsCons(SendImage(format, Caption), tail);
    SendsCons(SendText(ErrorText), []);
    assert [SendText(ErrorText)] + [] == [SendText(ErrorText)];
  }

  /** An empty (or missing) input cleans to the empty link; without arguments only the usage text is sent. */
  lemma NoArgumentsIsUsage(env: ImageEnv)
    ensures CleanUrl("") == ""
    ensures Run([], env) == [SendText(UsageText)]
  {
    assert Trim("") == "";
    assert CleanUrl("") == "";
  }

  /** A link in angle brackets, as chat clients send it, is unwrapped to the link itself. */
  lemma UnwrapsBrackets(url: string)
    requires url != "" && NoSpaces(url) && ZeroWidthSpace !in url
    requires url[0] != '<' && url[|url| - 1] != '>'
    ensures CleanUrl("<" + url + ">") == url
    ensures CleanUrl(url) == url
  {
    assert "<" + url + ">" == ['<'] + (url + ['>']);
    BracketedClean(url);
    BareClean(url);
  }

  lemma BracketedClean(url: string)
    requires url != "" && NoSpaces(url) && ZeroWidthSpace !in url
    requires url[0] != '<' && url[|url| - 1] != '>'
    ensures CleanUrl(['<'] + (url + ['>'])) == url
  {
    BracketedIsTrimmed(url);
    StripOnePair(url);
    CleanOfStripped(['<'] + (url + ['>']), url);
  }

  lemma BareClean(url: string)
    requires url != "" && NoSpaces(url) && ZeroWidthSpace !in url
    requires url[0] != '<' && url[|url| - 1] != '>'
    ensures CleanUrl(url) == url
  {
    assert IsTrimmed(url) by { assert !IsSpace(url[0]) && !IsSpace(url[|url| - 1]); }
    TrimOfTrimmed(url);
    StripOnePair(url);
    CleanOfStripped(url, url);
  }

  /** Once trimming and stripping leave a link without whitespace or zero-width space, that link is the result. */
  lemma CleanOfStripped(u: string, url: string)
    requires StripAngles(Trim(u)) == url && NoSpaces(url) && ZeroWidthSpace !in url
    ensures CleanUrl(u) == url
  {
    RemoveAllShorter(url, ZeroWidthSpace);
    CollapseWithoutSpaces(url);
  }

  /** A text that starts with whitespace has no scheme after collapsing. */
  lemma LeadingSpaceRefused(s: string)
    requires s != [] && IsSpace(s[0])
    ensures !Accepted(CollapseSpaces(s))
  {
    var r := CollapseSpaces(s);
    assert IsSpace(r[0]) && LowerChar(r[0]) == r[0] && r[0] != 'h';
    if |r| >= 7 {
      assert Lower(r[..7])[0] != "http://"[0];
    }
    if |r| >= 8 {
      assert Lower(r[..8])[0] != "https://"[0];
    }
  }

  /**
   * The whitespace run is collapsed after the brackets are stripped, so a space just
   * inside the opening bracket survives as a leading space and the link is refused.
   */
  lemma SpaceInsideBracketRefused(url: string)
    requires url != "" && url[|url| - 1] != '>'
    ensures !Accepted(CleanUrl(['<'] + (([' '] + url) + ['>'])))
  {
    var inner := [' '] + url;
    assert inner[0] == ' ';
    assert inner[|inner| - 1] == url[|url| - 1];
    StripOnePair(inner);
    BracketedIsTrimmed(inner);
    StrippedSpaceRefused(['<'] + (inner + ['>']));
  }

  /** A link whose stripped form starts with a space is refused. */
  lemma StrippedSpaceRefused(w: string)
    requires var t := StripAngles(Trim(w)); t != [] && t[0] == ' '
    ensures !Accepted(CleanUrl(w))
  {
    var t := StripAngles(Trim(w));
    RemoveKeepsHead(t);
    LeadingSpaceRefused(RemoveAll(t, ZeroWidthSpace));
  }

  lemma BracketedIsTrimmed(v: string)
    ensures Trim(['<'] + (v + ['>'])) == ['<'] + (v + ['>'])
  {
    var w := ['<'] + (v + ['>']);
    assert w[0] == '<' && w[|w| - 1] == '>';
    TrimOfTrimmed(w);
  }

  lemma RemoveKeepsHead(s: string)
    requires s != [] && s[0] != ZeroWidthSpace
    ensures RemoveAll(s, ZeroWidthSpace) != [] && RemoveAll(s, ZeroWidthSpace)[0] == s[0]
  {
  }

  /** The scheme is matched in any letter case. */
  lemma SchemeIgnoresCase()
    ensures HasHttpScheme("HTTPS://x") && HasHttpScheme("Http://x")
    ensures !HasHttpScheme("ftp://x") && !HasHttpScheme("http:/x")
  {
    assert Lower("HTTPS://x"[..8]) == "https://";
    assert Lower("Http://x"[..7]) == "http://";
    assert "ftp://x"[..7] == "ftp://x";
    assert Lower("ftp://x")[0] == 'f';
    assert "http:/x"[..7] == "http:/x";
    assert Lower("http:/x")[6] == 'x';
  }
}
