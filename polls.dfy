/**
 * The poll command (commands/polls.js): the words after the command are joined
 * back with single spaces and read as `question | option, option, ...`. A missing
 * question or option list gets the usage text, fewer than two non-empty options
 * get a reminder, and anything else becomes a single-choice poll. Every call
 * sends exactly one message, quoted, to the chat it came from.
 */
module Polls {
  import opened Text

  const UsageText: string := "استخدم: `!poll سؤال | خيار1, خيار2, خيار3`"
  const TooFewText: string := "رجاءً اكتب خيارين على الأقل."

  /** What the command sends: a text, or a poll with its question, options and the number of choices allowed. */
  datatype PollBody = TextReply(text: string) | Poll(name: string, options: seq<string>, selectableCount: nat)

  /** One message to a chat. */
  datatype Send = Send(chatId: string, body: PollBody)

  /** The question: the first `|`-piece, trimmed. */
  function QuestionPart(raw: string): string
  {
    Trim(Split(raw, '|')[0])
  }

  /** The option list: the second `|`-piece, trimmed, or "" when there is none. */
  function OptionsPart(raw: string): string
  {
    var pieces := Split(raw, '|');
    if |pieces| > 1 then Trim(pieces[1]) else ""
  }

  /** `map(s => s.trim()).filter(Boolean)`: trim every piece and drop the empty ones, keeping the order. */
  function CleanOptions(pieces: seq<string>): seq<string>
  {
    if pieces == [] then []
    else
      var t := Trim(pieces[0]);
      (if t == "" then [] else [t]) + CleanOptions(pieces[1..])
  }

  /** There are no more options than pieces, and every option is non-empty and trimmed. */
  lemma {:induction false} CleanOptionsClean(pieces: seq<string>)
    ensures |CleanOptions(pieces)| <= |pieces|
    ensures forall k :: 0 <= k < |CleanOptions(pieces)| ==>
      CleanOptions(pieces)[k] != "" && IsTrimmed(CleanOptions(pieces)[k])
    decreases |pieces|
  {
    if pieces != [] {
      var t := Trim(pieces[0]);
      var head: seq<string> := if t == "" then [] else [t];
      var tail := CleanOptions(pieces[1..]);
      CleanOptionsClean(pieces[1..]);
      assert CleanOptions(pieces) == head + tail;
      forall k | 0 <= k < |head + tail|
        ensures (head + tail)[k] != "" && IsTrimmed((head + tail)[k])
      {
        if k >= |head| {
          assert (head + tail)[k] == tail[k - |head|];
        }
      }
    }
  }

  /** The message for a question and an option list: usage, the reminder, or the poll. */
  function PollFor(q: string, o: string): (r: PollBody)
    ensures r == TextReply(UsageText) <==> q == "" || o == ""
    ensures r == TextReply(TooFewText) <==> q != "" && o != "" && |CleanOptions(Split(o, ','))| < 2
    ensures r.Poll? ==> r.name == q && r.selectableCount == 1 && r.options == CleanOptions(Split(o, ',')) && |r.options| >= 2
  {
    if q == "" || o == "" then TextReply(UsageText)
    else
      var opts := CleanOptions(Split(o, ','));
      if |opts| < 2 then TextReply(TooFewText) else Poll(q, opts, 1)
  }

  /** The message the command sends for the joined argument text. */
  function Reply(raw: string): (r: PollBody)
    ensures r.Poll? ==>
      && r.name == QuestionPart(raw) && r.name != "" && IsTrimmed(r.name) && '|' !in r.name
      && r.selectableCount == 1
      && |r.options| >= 2
      && forall k :: 0 <= k < |r.options| ==>
           r.options[k] != "" && IsTrimmed(r.options[k]) && ',' !in r.options[k] && '|' !in r.options[k]
  {
    var q := QuestionPart(raw);
    var o := OptionsPart(raw);
    PartsFree(raw);
    CleanOptionsClean(Split(o, ','));
    SplitKeepsOut(o, ',', '|');
    OptionsFree(Split(o, ','), '|');
    OptionsFree(Split(o, ','), ',');
    PollFor(q, o)
  }

  /** Neither part holds a `|`. */
  lemma PartsFree(raw: string)
    ensures '|' !in QuestionPart(raw) && '|' !in OptionsPart(raw)
  {
    var pieces := Split(raw, '|');
    TrimKeepsOut(pieces[0], '|');
    if |pieces| > 1 {
      TrimKeepsOut(pieces[1], '|');
    }
  }

  /** `run`: a missing argument list is the empty one. */
  function Run(chatId: string, args: seq<string>): (s: Send)
    ensures s.chatId == chatId
    ensures s.body.Poll? ==> s.body.selectableCount == 1 && |s.body.options| >= 2
  {
    Send(chatId, Reply(Join(args, " ")))
  }

  /** Options carry no character that none of the pieces carries. */
  lemma {:induction false} OptionsFree(pieces: seq<string>, c: char)
    requires forall k :: 0 <= k < |pieces| ==> c !in pieces[k]
    ensures forall k :: 0 <= k < |CleanOptions(pieces)| ==> c !in CleanOptions(pieces)[k]
    decreases |pieces|
  {
    if pieces != [] {
      TrimKeepsOut(pieces[0], c);
      OptionsFree(pieces[1..], c);
    }
  }

  /** Cleaning options distributes over concatenation, so the order of the pieces is kept. */
  lemma {:induction false} CleanOptionsAppend(xs: seq<string>, ys: seq<string>)
    ensures CleanOptions(xs + ys) == CleanOptions(xs) + CleanOptions(ys)
    decreases |xs|
  {
    if xs == [] {
      assert xs + ys == ys;
    } else {
      var p, rest := xs[0], xs[1..];
      assert xs == [p] + rest;
      assert xs + ys == [p] + (rest + ys);
      CleanOptionsAppend(rest, ys);
      CleanOptionsCons(p, rest + ys);
      CleanOptionsCons(p, rest);
      var h: seq<string> := if Trim(p) == "" then [] else [Trim(p)];
      ConcatAssoc(h, CleanOptions(rest), CleanOptions(ys));
    }
  }

  lemma ConcatAssoc(a: seq<string>, b: seq<string>, c: seq<string>)
    ensures a + (b + c) == (a + b) + c
  {
  }

  /** One piece in front: its trimmed form, when non-empty, comes first. */
  lemma CleanOptionsCons(p: string, rest: seq<string>)
    ensures CleanOptions([p] + rest) == (if Trim(p) == "" then [] else [Trim(p)]) + CleanOptions(rest)
  {
    assert ([p] + rest)[0] == p;
    assert ([p] + rest)[1..] == rest;
  }

  /** Some piece trims to `t`. */
  predicate TrimsTo(pieces: seq<string>, t: string)
  {
    exists k :: 0 <= k < |pieces| && Trim(pieces[k]) == t
  }

  lemma TrimsToCons(p: string, rest: seq<string>, t: string)
    ensures TrimsTo([p] + rest, t) <==> Trim(p) == t || TrimsTo(rest, t)
  {
    if TrimsTo([p] + rest, t) {
      TrimsToUncons(p, rest, t);
    }
    if Trim(p) == t || TrimsTo(rest, t) {
      TrimsToCons1(p, rest, t);
    }
  }

  lemma TrimsToUncons(p: string, rest: seq<string>, t: string)
    requires TrimsTo([p] + rest, t)
    ensures Trim(p) == t || TrimsTo(rest, t)
  {
    var ps := [p] + rest;
    var k :| 0 <= k < |ps| && Trim(ps[k]) == t;
    if k > 0 {
      assert rest[k - 1] == ps[k];
    }
  }

  lemma TrimsToCons1(p: string, rest: seq<string>, t: string)
    requires Trim(p) == t || TrimsTo(rest, t)
    ensures TrimsTo([p] + rest, t)
  {
    var ps := [p] + rest;
    if Trim(p) == t {
      assert ps[0] == p;
    } else {
      var k :| 0 <= k < |rest| && Trim(rest[k]) == t;
      assert ps[k + 1] == rest[k];
    }
  }

  /** An option is kept exactly when it is the non-empty trimmed form of some piece. */
  lemma {:induction false} CleanOptionsMembers(pieces: seq<string>, t: string)
    ensures t in CleanOptions(pieces) <==> t != "" && exists k :: 0 <= k < |pieces| && Trim(pieces[k]) == t
    decreases |pieces|
  {
    if pieces != [] {
      var p, rest := pieces[0], pieces[1..];
      assert pieces == [p] + rest;
      CleanOptionsMembers(rest, t);
      CleanOptionsCons(p, rest);
      TrimsToCons(p, rest, t);
    }
  }

  /** Pieces that are already clean come through unchanged. */
  lemma {:induction false} CleanOptionsOfClean(pieces: seq<string>)
    requires forall k :: 0 <= k < |pieces| ==> pieces[k] != "" && IsTrimmed(pieces[k])
    ensures CleanOptions(pieces) == pieces
    decreases |pieces|
  {
    if pieces != [] {
      TrimOfTrimmed(pieces[0]);
      CleanOptionsOfClean(pieces[1..]);
    }
  }

  /** The usage text goes out exactly when the question or the option list is empty. */
  lemma UsageRule(raw: string)
    ensures Reply(raw) == TextReply(UsageText) <==> QuestionPart(raw) == "" || OptionsPart(raw) == ""
  {
    assert TooFewText != UsageText by { assert TooFewText[0] != UsageText[0]; }
  }

  /** A text without `|` never makes a poll: it always gets the usage text. */
  lemma NoBarIsUsage(raw: string)
    requires '|' !in raw
    ensures Reply(raw) == TextReply(UsageText)
  {
    IndexOfUpTo(raw, '|');
  }

  /** The reminder goes out exactly when both parts are present but fewer than two options survive cleaning. */
  lemma TooFewRule(raw: string)
    ensures Reply(raw) == TextReply(TooFewText) <==>
      QuestionPart(raw) != "" && OptionsPart(raw) != "" && |CleanOptions(Split(OptionsPart(raw), ','))| < 2
  {
    assert TooFewText != UsageText by { assert TooFewText[0] != UsageText[0]; }
  }

  /** The options of a poll are the non-empty trimmed comma pieces of the option list, in their order. */
  lemma PollOptions(raw: string)
    requires Reply(raw).Poll?
    ensures Reply(raw).options == CleanOptions(Split(OptionsPart(raw), ','))
  {
  }

  /** The first two pieces of `a|b|...`. */
  lemma {:induction false} SplitTwo(a: string, b: string, c: string)
    requires '|' !in a && '|' !in b
    ensures Split(a + "|" + b, '|') == [a, b]
    ensures var l := Split(a + "|" + b + "|" + c, '|'); |l| >= 2 && l[0] == a && l[1] == b
  {
    assert a + "|" + b == a + (['|'] + b);
    SplitAfter(a, b, '|');
    IndexOfUpTo(b, '|');
    assert a + "|" + b + "|" + c == a + (['|'] + (b + (['|'] + c)));
    SplitAfter(a, b + (['|'] + c), '|');
    SplitAfter(b, c, '|');
  }

  /** Anything after a second `|` is ignored. */
  lemma ExtraPiecesIgnored(a: string, b: string, c: string)
    requires '|' !in a && '|' !in b
    ensures Reply(a + "|" + b + "|" + c) == Reply(a + "|" + b)
  {
    var long, short := a + "|" + b + "|" + c, a + "|" + b;
    assert QuestionPart(long) == QuestionPart(short) && OptionsPart(long) == OptionsPart(short) by {
      SplitTwo(a, b, c);
    }
  }

  /** A joined list of non-empty trimmed parts is non-empty and trimmed. */
  lemma {:induction false} JoinTrimmed(parts: seq<string>, sep: string)
    requires |parts| >= 1
    requires forall k :: 0 <= k < |parts| ==> parts[k] != "" && IsTrimmed(parts[k])
    ensures Join(parts, sep) != "" && IsTrimmed(Join(parts, sep))
    decreases |parts|
  {
    if |parts| > 1 {
      JoinTrimmed(parts[1..], sep);
      var r := Join(parts[1..], sep);
      var j := parts[0] + sep + r;
      assert j[0] == parts[0][0];
      assert j[|j| - 1] == r[|r| - 1];
    }
  }

  /** A character in no part and not in the separator is not in the joined text. */
  lemma {:induction false} JoinKeepsOut(parts: seq<string>, sep: string, c: char)
    requires c !in sep
    requires forall k :: 0 <= k < |parts| ==> c !in parts[k]
    ensures c !in Join(parts, sep)
    decreases |parts|
  {
    if |parts| > 1 {
      JoinKeepsOut(parts[1..], sep, c);
    }
  }

  /**
   * Round trip: writing a question and at least two clean options as
   * `question|option,option,...` gives back exactly that poll.
   */
  lemma RoundTrip(question: string, options: seq<string>)
    requires question != "" && IsTrimmed(question) && '|' !in question
    requires |options| >= 2
    requires forall k :: 0 <= k < |options| ==>
      options[k] != "" && IsTrimmed(options[k]) && ',' !in options[k] && '|' !in options[k]
    ensures Reply(question + "|" + Join(options, ",")) == Poll(question, options, 1)
  {
    RoundTripParts(question, options);
    RoundTripOptions(options);
  }

  lemma RoundTripOptions(options: seq<string>)
    requires |options| >= 1
    requires forall k :: 0 <= k < |options| ==> options[k] != "" && IsTrimmed(options[k]) && ',' !in options[k]
    ensures CleanOptions(Split(Join(options, ","), ',')) == options
  {
    SplitJoin(options, ',');
    CleanOptionsOfClean(options);
  }

  lemma RoundTripParts(question: string, options: seq<string>)
    requires question != "" && IsTrimmed(question) && '|' !in question
    requires |options| >= 2
    requires forall k :: 0 <= k < |options| ==> options[k] != "" && IsTrimmed(options[k]) && '|' !in options[k]
    ensures QuestionPart(question + "|" + Join(options, ",")) == question
    ensures OptionsPart(question + "|" + Join(options, ",")) == Join(options, ",")
  {
    var j := Join(options, ",");
    JoinKeepsOut(options, ",", '|');
    SplitTwo(question, j, "");
    TrimOfTrimmed(question);
    JoinTrimmed(options, ",");
    TrimOfTrimmed(j);
  }

  /** `a | b` reads as the question `a` with the option list `b`. */
  lemma SpacedBar(a: string, b: string)
    requires IsTrimmed(a) && IsTrimmed(b) && '|' !in a && '|' !in b
    ensures QuestionPart(a + " | " + b) == a
    ensures OptionsPart(a + " | " + b) == b
  {
    assert a + " | " + b == (a + " ") + "|" + (" " + b);
    SplitTwo(a + " ", " " + b, "");
    TrimSpaceAfter(a);
    TrimSpaceBefore(b);
  }

  /** `x, y` gives the two options `x` and `y`. */
  lemma SpacedComma(x: string, y: string)
    requires x != "" && y != "" && IsTrimmed(x) && IsTrimmed(y) && ',' !in x && ',' !in y
    ensures CleanOptions(Split(x + ", " + y, ',')) == [x, y]
  {
    CommaSpaceSplit(x, y);
    CleanTwo(x, y);
  }

  lemma CommaSpaceSplit(x: string, y: string)
    requires ',' !in x && ',' !in y
    ensures Split(x + ", " + y, ',') == [x, " " + y]
  {
    var r := " " + y;
    assert x + ", " + y == x + ([','] + r);
    SplitAfter(x, r, ',');
    SplitNone(r, ',');
  }

  lemma CleanTwo(x: string, y: string)
    requires x != "" && y != "" && IsTrimmed(x) && IsTrimmed(y)
    ensures CleanOptions([x, " " + y]) == [x, y]
  {
    var r := " " + y;
    CleanSpaced(y);
    TrimOfTrimmed(x);
    CleanOptionsKept(x, x, [r]);
    assert [x] + [r] == [x, r];
    assert [x] + [y] == [x, y];
  }

  lemma CleanSpaced(y: string)
    requires y != "" && IsTrimmed(y)
    ensures CleanOptions([" " + y]) == [y]
  {
    TrimSpaceBefore(y);
    CleanOptionsKept(" " + y, y, []);
    assert [" " + y] + [] == [" " + y];
  }

  /** A piece that trims to a non-empty option is kept in front. */
  lemma CleanOptionsKept(p: string, t: string, rest: seq<string>)
    requires Trim(p) == t && t != ""
    ensures CleanOptions([p] + rest) == [t] + CleanOptions(rest)
  {
    CleanOptionsCons(p, rest);
  }

  lemma ScenarioJoin()
    ensures Join(["Best", "color", "|", "Red,", "Blue"], " ") == "Best color" + " | " + ("Red" + ", " + "Blue")
  {
    JoinFive("Best", "color", "|", "Red,", "Blue", " ");
  }

  lemma JoinFive(a: string, b: string, c: string, d: string, e: string, sep: string)
    ensures Join([a, b, c, d, e], sep) == a + sep + (b + sep + (c + sep + (d + sep + e)))
  {
    JoinCons(d, [e], sep);
    assert [d, e] == [d] + [e];
    JoinCons(c, [d, e], sep);
    assert [c, d, e] == [c] + [d, e];
    JoinCons(b, [c, d, e], sep);
    assert [b, c, d, e] == [b] + [c, d, e];
    JoinCons(a, [b, c, d, e], sep);
    assert [a, b, c, d, e] == [a] + [b, c, d, e];
  }

  /** `a | x, y` makes the poll `a` with the two options `x` and `y`. */
  lemma TwoOptionPoll(a: string, x: string, y: string)
    requires a != "" && IsTrimmed(a) && '|' !in a
    requires x != "" && y != "" && IsTrimmed(x) && IsTrimmed(y)
    requires ',' !in x && ',' !in y && '|' !in x && '|' !in y
    ensures Reply(a + " | " + (x + ", " + y)) == Poll(a, [x, y], 1)
  {
    var b := x + ", " + y;
    assert IsTrimmed(b) && '|' !in b;
    SpacedBar(a, b);
    SpacedComma(x, y);
  }

  /** The words `Best color | Red, Blue` make the poll "Best color" with the options Red and Blue. */
  lemma ScenarioBestColor()
    ensures Run("c@g.us", ["Best", "color", "|", "Red,", "Blue"]) == Send("c@g.us", Poll("Best color", ["Red", "Blue"], 1))
  {
    ScenarioJoin();
    TwoOptionPoll("Best color", "Red", "Blue");
  }
}
