/** The text that is signed for a room message. */
module Canonical {
  import opened Types
  import opened Text

  /** The general category of a character, as far as the sweep looks at it. */
  datatype Category = Other | Separator | Visible

  const SIGNED_LIMIT := 4096

  /** The explicit ranges of the sweep, which hold whatever the category table says. */
  predicate Listed(c: char) {
    || c in "\U{200B}\U{200C}\U{200D}\U{FEFF}\U{2060}\U{180E}"
    || '\U{202A}' <= c <= '\U{202E}' || '\U{2066}' <= c <= '\U{2069}'
    || c in "\U{200E}\U{200F}\U{061C}"
    || c < '\U{0020}' || '\U{007F}' <= c <= '\U{009F}'
  }

  predicate Invisible(c: char, category: char -> Category) {
    category(c) != Visible || Listed(c)
  }

  function Swept(text: string, category: char -> Category): (s: string)
    ensures |s| == |text|
    ensures forall i | 0 <= i < |text| :: s[i] == if Invisible(text[i], category) then ' ' else text[i]
  {
    if text == "" then ""
    else
      var c := text[|text| - 1];
      Swept(text[..|text| - 1], category) + [if Invisible(c, category) then ' ' else c]
  }

  /** The loop of the source, with its checks in order. */
  method SweepText(text: string, category: char -> Category) returns (out: string)
    ensures out == Swept(text, category)
  {
    out := "";
    for i := 0 to |text|
      invariant out == Swept(text[..i], category)
    {
      assert text[..i + 1][..i] == text[..i];
      var c := text[i];
      if category(c) != Visible {
        out := out + [' '];
        continue;
      }
      if c in "\U{200B}\U{200C}\U{200D}\U{FEFF}\U{2060}\U{180E}" {
        out := out + [' '];
        continue;
      }
      if '\U{202A}' <= c <= '\U{202E}' || '\U{2066}' <= c <= '\U{2069}' || c in "\U{200E}\U{200F}\U{061C}" {
        out := out + [' '];
        continue;
      }
      if c < '\U{0020}' || '\U{007F}' <= c <= '\U{009F}' {
        out := out + [' '];
        continue;
      }
      out := out + [c];
    }
    assert text[..|text|] == text;
  }

  /** The code points that the sweep replaces whatever the category table says of them. */
  lemma SweptCodes(c: char, category: char -> Category)
    ensures
      var o := c as int;
      Invisible(c, category) <==>
        || category(c) != Visible
        || o < 0x20 || 0x7F <= o <= 0x9F || o == 0x061C || o == 0x180E || 0x200B <= o <= 0x200F
        || 0x202A <= o <= 0x202E || o == 0x2060 || 0x2066 <= o <= 0x2069 || o == 0xFEFF
  {
    assert c == '\U{061C}' <==> c as int == 0x061C;
  }

  lemma SweepTwice(text: string, category: char -> Category, n: nat)
    requires n <= |text|
    ensures Swept(Swept(text, category)[..n], category) == Swept(text, category)[..n]
  {
    hide Swept, Invisible;
    var s := Swept(text, category);
    forall i | 0 <= i < n ensures Swept(s[..n], category)[i] == s[..n][i] {
      assert s[..n][i] == s[i];
    }
  }

  predicate RoomChar(c: char) {
    'a' <= c <= 'z' || IsDigit(c) || c == '_' || c == '-'
  }

  /** A dollar sign at the end of a pattern also matches before a final line feed. */
  function Core(s: string): (t: string)
    ensures s == t || s == t + "\n"
  {
    if s != "" && s[|s| - 1] == '\n' then s[..|s| - 1] else s
  }

  predicate ValidRoom(room: string) {
    var r := Core(room);
    1 <= |r| <= 48 && RoomChar(r[0]) && r[0] != '_' && r[0] != '-' && forall i | 0 <= i < |r| :: RoomChar(r[i])
  }

  predicate ValidNonce(nonce: string) {
    var n := Core(nonce);
    1 <= |n| <= 19 && forall i | 0 <= i < |n| :: IsDigit(n[i])
  }

  datatype Canon = Text(text: string) | BadRoom | BadNonce

  function CanonicalString(room: string, nonce: string, text: string, category: char -> Category): (c: Canon) {
    if !ValidRoom(room) then BadRoom
    else if !ValidNonce(nonce) then BadNonce
    else Text(room + "|" + nonce + "|" + Swept(text, category))
  }

  lemma NoBar(s: string)
    requires ValidRoom(s) || ValidNonce(s)
    ensures '|' !in s
  {
    var t := Core(s);
    forall i | 0 <= i < |s| ensures s[i] != '|' {
      if i < |t| { assert s[i] == t[i]; }
    }
  }

  /** A text without bars is found again before the first bar. */
  lemma FirstBar(a1: string, b1: string, a2: string, b2: string)
    requires '|' !in a1 && '|' !in a2 && a1 + "|" + b1 == a2 + "|" + b2
    ensures a1 == a2 && b1 == b2
  {
    var s, t := a1 + "|" + b1, a2 + "|" + b2;
    assert s[|a1|] == '|' && t[|a2|] == '|';
    forall i | 0 <= i < |a1| ensures s[i] != '|' { assert s[i] == a1[i]; }
    forall i | 0 <= i < |a2| ensures t[i] != '|' { assert t[i] == a2[i]; }
    assert |a1| == |a2|;
    assert s[..|a1|] == a1 && t[..|a2|] == a2;
    assert s[|a1| + 1..] == b1 && t[|a2| + 1..] == b2;
  }

  /** The signed text determines its parts, on all triples the function accepts. */
  lemma CanonicalIsUnambiguous(r1: string, n1: string, t1: string, r2: string, n2: string, t2: string,
                               category: char -> Category)
    requires CanonicalString(r1, n1, t1, category).Text? && CanonicalString(r2, n2, t2, category).Text?
    ensures CanonicalString(r1, n1, t1, category) == CanonicalString(r2, n2, t2, category) <==>
            r1 == r2 && n1 == n2 && Swept(t1, category) == Swept(t2, category)
  {
    hide Swept, ValidRoom, ValidNonce;
    NoBar(r1);
    NoBar(n1);
    NoBar(r2);
    NoBar(n2);
    var s1, s2 := Swept(t1, category), Swept(t2, category);
    if CanonicalString(r1, n1, t1, category) == CanonicalString(r2, n2, t2, category) {
      assert r1 + "|" + n1 + "|" + s1 == r1 + "|" + (n1 + "|" + s1);
      assert r2 + "|" + n2 + "|" + s2 == r2 + "|" + (n2 + "|" + s2);
      FirstBar(r1, n1 + "|" + s1, r2, n2 + "|" + s2);
      FirstBar(n1, s1, n2, s2);
    }
  }

  /** Who made the signature that is sent: signed_post over a text, or the caller. */
  datatype Signature = Made(text: string) | Given(sig: string)

  /** What signed_post sends, or why it does not. */
  datatype Post =
    | Sent(body: string, nonce: string, signature: Signature)
    | RoomRefused
    | Empty
    | NonceRefused
    | SigRefused

  predicate SigChar(c: char) {
    'A' <= c <= 'Z' || 'a' <= c <= 'z' || IsDigit(c) || c == '_' || c == '-'
  }

  predicate ValidSig(sig: string) {
    var s := Core(sig);
    |s| == 86 && forall i | 0 <= i < |s| :: SigChar(s[i])
  }

  function BodyText(raw: string, category: char -> Category): (text: string) {
    var swept := Swept(raw, category);
    if |swept| > SIGNED_LIMIT then swept[..SIGNED_LIMIT] else swept
  }

  /** A signature the caller passed; an empty text counts as none. */
  predicate Passed(sig: Option<string>) {
    sig.Some? && sig.value != ""
  }

  /** The text handling of signed_post up to the request; a signature passed by the caller is not made again. */
  function SignedPost(room: string, raw: string, nonce: string, sig: Option<string>, category: char -> Category)
    : (p: Post)
  {
    if !ValidRoom(room) then RoomRefused
    else if Trim(Swept(raw, category), PySpace) == "" then Empty
    else
      var text := BodyText(raw, category);
      if Passed(sig) then
        if !ValidSig(sig.value) then SigRefused
        else if !ValidNonce(nonce) then NonceRefused
        else Sent(text, nonce, Given(sig.value))
      else
        match CanonicalString(room, nonce, text, category)
        case Text(signed) => Sent(text, nonce, Made(signed))
        case BadRoom => RoomRefused
        case BadNonce => NonceRefused
  }

  /**
  A signature that is made here covers exactly the room, the nonce and the text of the body that is sent: sweeping once
  more changes nothing, also after the cut, so a peer that rebuilds the signed text from the body gets the same one.  A
  signature is made here exactly when the caller passed none or an empty one; any other is sent as it is, over whatever
  text.
  */
  lemma SignedIsWhatIsSent(room: string, raw: string, nonce: string, sig: Option<string>, category: char -> Category)
    requires SignedPost(room, raw, nonce, sig, category).Sent?
    ensures
      var p := SignedPost(room, raw, nonce, sig, category);
      && (p.signature.Made? <==> sig.None? || sig == Some("")) && (Passed(sig) ==> p.signature == Given(sig.value))
      && (p.signature.Made? ==> p.signature.text == room + "|" + p.nonce + "|" + p.body)
      && CanonicalString(room, p.nonce, p.body, category) == Text(room + "|" + p.nonce + "|" + p.body)
      && p.body == (if |raw| <= 4096 then Swept(raw, category) else Swept(raw, category)[..4096])
  {
    hide SignedPost, Swept, Invisible, BodyText, CanonicalString;
    BodyIsSwept(raw, category);
    SentMeans(room, raw, nonce, sig, category);
  }

  lemma SentMeans(room: string, raw: string, nonce: string, sig: Option<string>, category: char -> Category)
    requires SignedPost(room, raw, nonce, sig, category).Sent?
    ensures
      var p, body := SignedPost(room, raw, nonce, sig, category), BodyText(raw, category);
      var signed := room + "|" + nonce + "|" + Swept(body, category);
      && p.body == body && p.nonce == nonce
      && p.signature == (if Passed(sig) then Given(sig.value) else Made(signed))
      && CanonicalString(room, nonce, body, category) == Text(signed)
  {
    hide ValidRoom, ValidNonce, ValidSig, Trim, Swept, BodyText;
  }

  /** The text that goes out is the whole swept text or its first 4096 characters; to sweep it again changes nothing. */
  lemma BodyIsSwept(raw: string, category: char -> Category)
    ensures BodyText(raw, category) == if |raw| <= 4096 then Swept(raw, category) else Swept(raw, category)[..4096]
    ensures Swept(BodyText(raw, category), category) == BodyText(raw, category)
  {
    hide Swept, Invisible;
    var swept := Swept(raw, category);
    SweepTwice(raw, category, if |raw| <= 4096 then |raw| else 4096);
    assert swept[..|swept|] == swept;
  }

  predicate Blank(s: string) {
    forall i | 0 <= i < |s| :: PySpace(s[i])
  }

  /**
  A message is sent exactly when the room is well formed, something visible is left of the text, the nonce is well
  formed and so is a signature that was passed; the room is looked at first, then the text, then a passed signature.
  */
  lemma SentExactly(room: string, raw: string, nonce: string, sig: Option<string>, category: char -> Category)
    ensures
      var p, visible := SignedPost(room, raw, nonce, sig, category), !Blank(Swept(raw, category));
      && (p.RoomRefused? <==> !ValidRoom(room))
      && (p.Empty? <==> ValidRoom(room) && !visible)
      && (p.SigRefused? <==> ValidRoom(room) && visible && Passed(sig) && !ValidSig(sig.value))
      && (p.NonceRefused? <==>
            ValidRoom(room) && visible && (Passed(sig) ==> ValidSig(sig.value)) && !ValidNonce(nonce))
  {
    hide ValidRoom, ValidNonce, ValidSig, Swept, PySpace;
    BlankMeans(Swept(raw, category), PySpace);
    hide Trim, BodyText;
  }

  /** What the patterns mean of a text that holds no line feed. */
  lemma PatternsMean(s: string)
    requires '\n' !in s
    ensures ValidRoom(s) <==>
              && 1 <= |s| <= 48 && ('a' <= s[0] <= 'z' || '0' <= s[0] <= '9')
              && forall i | 0 <= i < |s| :: 'a' <= s[i] <= 'z' || '0' <= s[i] <= '9' || s[i] in "_-"
    ensures ValidNonce(s) <==> 1 <= |s| <= 19 && forall i | 0 <= i < |s| :: '0' <= s[i] <= '9'
    ensures ValidSig(s) <==>
              && |s| == 86
              && forall i | 0 <= i < |s| ::
                   'A' <= s[i] <= 'Z' || 'a' <= s[i] <= 'z' || '0' <= s[i] <= '9' || s[i] in "_-"
  {
    if s != "" { assert s[|s| - 1] in s; }
    assert Core(s) == s;
  }

  /** The text without its last character meets the pattern as it is meant, from end to end. */
  predicate WholeRoom(room: string) {
    ValidRoom(room) && '\n' !in room
  }

  predicate WholeNonce(nonce: string) {
    ValidNonce(nonce) && '\n' !in nonce
  }

  /**
  What the dollar sign lets through: an accepted room or nonce holds a line feed exactly when that is its last
  character, and a text with a final line feed is accepted exactly when the text before it meets the whole pattern.
  */
  lemma LineFeedOnlyAtTheEnd(s: string)
    ensures ValidRoom(s) ==> ('\n' in s <==> s[|s| - 1] == '\n')
    ensures ValidNonce(s) ==> ('\n' in s <==> s[|s| - 1] == '\n')
    ensures ValidRoom(s + "\n") <==> WholeRoom(s)
    ensures ValidNonce(s + "\n") <==> WholeNonce(s)
  {
    assert Core(s + "\n") == s by { assert (s + "\n")[..|s|] == s; }
    var t := Core(s);
    if ValidRoom(s) || ValidNonce(s) {
      forall i | 0 <= i < |t| ensures s[i] != '\n' { assert s[i] == t[i]; }
    }
    if '\n' !in s { assert t == s; }
    if WholeRoom(s) || WholeNonce(s) { assert s[|s| - 1] in s; }
    assert forall i | 0 <= i < |s| :: RoomChar(s[i]) ==> s[i] != '\n';
    assert forall i | 0 <= i < |s| :: IsDigit(s[i]) ==> s[i] != '\n';
  }

  /** Room names and nonces may carry a final line feed; the signed text then carries it too. */
  lemma LineFeedPasses(category: char -> Category)
    ensures ValidRoom("a\n") && ValidNonce("1\n")
    ensures CanonicalString("a\n", "1\n", "", category) == Text("a\n|1\n|")
  {
    assert Core("a\n") == "a" && Core("1\n") == "1";
    assert "a\n" + "|" + "1\n" + "|" + "" == "a\n|1\n|";
  }
}
