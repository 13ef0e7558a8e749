/** crosspresence/labels.go: the line a console shows for a friend who is live somewhere else. ASCII text. */
module Labels {
  import opened Ascii

  /** What the core says about one account. */
  datatype Live = Live(namespace: string, titleId: string, client: string)

  const PLATFORM_LABELS: map<string, string> := map[
    "switch" := "Switch", "wiiu" := "Wii U", "wii" := "Wii", "3ds" := "3DS", "nds" := "NDS", "ds" := "NDS",
    "np" := "PS3", "ps3" := "PS3", "xbox360" := "Xbox 360", "xbox-360" := "Xbox 360", "xbl" := "Xbox 360"]

  const EMULATOR_LABELS: map<string, string> := map[
    "harbor" := "Harbor", "ryujinx" := "Ryujinx", "eden" := "Eden", "citron" := "Citron",
    "pier" := "Pier", "wharf" := "Wharf", "cemu" := "Cemu", "azahar" := "Azahar", "dolphin" := "Dolphin",
    "melonds" := "melonDS", "xemu" := "xemu", "xenia" := "Xenia", "pcsx2" := "PCSX2", "rpcs3" := "RPCS3",
    "ppsspp" := "PPSSPP", "vita3k" := "Vita3K"]

  const MAX_MESSAGE: nat := 60

  /** strings.EqualFold, for ASCII. */
  predicate EqualFold(a: string, b: string) {
    Lower(a) == Lower(b)
  }

  predicate IsSpace(c: char) {
    c == ' ' || c == '\t' || c == '\n' || c == '\r' || c as int == 11 || c as int == 12
  }

  function TrimSpace(s: string): string {
    if s != "" && IsSpace(s[0]) then TrimSpace(s[1..])
    else if s != "" && IsSpace(s[|s| - 1]) then TrimSpace(s[..|s| - 1])
    else s
  }

  function Capitalized(s: string): string {
    if s == "" then "" else [ToUpper(s[0])] + s[1..]
  }

  function ClientLabel(namespace: string, client: string): string {
    var c := Lower(TrimSpace(client));
    var ns := Lower(TrimSpace(namespace));
    if c in EMULATOR_LABELS then EMULATOR_LABELS[c]
    else if c in PLATFORM_LABELS then PLATFORM_LABELS[c]
    else if c != "" then Capitalized(c)
    else if ns in PLATFORM_LABELS then PLATFORM_LABELS[ns]
    else Capitalized(ns)
  }

  function Clipped(s: string): string {
    if MAX_MESSAGE < |s| then s[..MAX_MESSAGE] else s
  }

  /** Where the friend is, as the line says it. */
  function Place(namespace: string, client: string): string {
    var shown := ClientLabel(namespace, client);
    if shown == "" then "another console" else shown
  }

  /** `name` is what the title-name cache answers, "" while it does not know. */
  function Description(l: Live, name: string): (line: string)
    ensures 0 < |line| <= 60
  {
    var place := Place(l.namespace, l.client);
    Clipped(
      if l.titleId == "" then "Online on " + place
      else if name != "" then "Playing " + name + " on " + place
      else "Playing a game on " + place)
  }

  // --- the line ---

  /** All of `full`, or the first 60 characters if it is longer. */
  ghost predicate StartsAs(line: string, full: string) {
    line <= full && |line| == if |full| <= 60 then |full| else 60
  }

  /** Which of the three forms the line has. */
  lemma DescriptionSays(l: Live, name: string)
    ensures l.titleId == "" ==> StartsAs(Description(l, name), "Online on " + Place(l.namespace, l.client))
    ensures l.titleId != "" && name != "" ==>
      StartsAs(Description(l, name), "Playing " + name + " on " + Place(l.namespace, l.client))
    ensures l.titleId != "" && name == "" ==>
      StartsAs(Description(l, name), "Playing a game on " + Place(l.namespace, l.client))
  {
  }

  /** The lines the source gives as its examples. */
  lemma ExampleLines(titleId: string)
    requires titleId != ""
    ensures Description(Live("switch", titleId, "ryujinx"), "Kirby") == "Playing Kirby on Ryujinx"
    ensures Description(Live("switch", titleId, ""), "") == "Playing a game on Switch"
    ensures Description(Live("3ds", "", ""), "") == "Online on 3DS"
  {
    hide ClientLabel, Description, Names, StartsAs;
    ExamplePlaces();
    Example(Live("switch", titleId, "ryujinx"), "Kirby", "Playing " + "Kirby" + " on " + "Ryujinx");
    Example(Live("switch", titleId, ""), "", "Playing a game on " + "Switch");
    Example(Live("3ds", "", ""), "", "Online on " + "3DS");
  }

  lemma Example(l: Live, name: string, line: string)
    requires |line| <= 60
    requires line == if l.titleId == "" then "Online on " + Place(l.namespace, l.client)
                     else if name != "" then "Playing " + name + " on " + Place(l.namespace, l.client)
                     else "Playing a game on " + Place(l.namespace, l.client)
    ensures Description(l, name) == line
  {
  }

  lemma ExamplePlaces()
    ensures Place("switch", "ryujinx") == "Ryujinx" && Place("switch", "") == "Switch" && Place("3ds", "") == "3DS"
  {
    hide ClientLabel;
    KnownEmulators("switch");
    KnownPlatforms();
  }

  // --- the place ---

  predicate Blank(s: string) {
    forall i :: 0 <= i < |s| ==> IsSpace(s[i])
  }

  /** Neither begins nor ends with a blank. */
  predicate Trimmed(s: string) {
    s != "" ==> !IsSpace(s[0]) && !IsSpace(s[|s| - 1])
  }

  /** Only the blanks at the ends go. */
  lemma {:induction false} TrimDropsBlanks(s: string) returns (pre: string, post: string)
    ensures s == pre + TrimSpace(s) + post && Blank(pre) && Blank(post) && Trimmed(TrimSpace(s))
  {
    pre, post := "", "";
    if s != "" && IsSpace(s[0]) {
      var rest;
      rest, post := TrimDropsBlanks(s[1..]);
      pre := [s[0]] + rest;
      assert s == [s[0]] + s[1..] == pre + TrimSpace(s) + post;
    } else if s != "" && IsSpace(s[|s| - 1]) {
      var rest;
      pre, rest := TrimDropsBlanks(s[..|s| - 1]);
      post := rest + [s[|s| - 1]];
      assert s == s[..|s| - 1] + [s[|s| - 1]] == pre + TrimSpace(s) + post;
    }
  }

  lemma TrimBlank(s: string)
    ensures TrimSpace(s) == "" <==> Blank(s)
  {
    var pre, post := TrimDropsBlanks(s);
    if TrimSpace(s) != "" {
      assert s[|pre|] == TrimSpace(s)[0];
    }
  }

  lemma {:induction false} TrimIgnoresBlanks(pre: string, s: string, post: string)
    requires Blank(pre) && Blank(post)
    ensures TrimSpace(pre + s + post) == TrimSpace(s)
    decreases |pre| + |s| + |post|
  {
    var all := pre + s + post;
    if pre != "" {
      assert all[1..] == pre[1..] + s + post && all[0] == pre[0];
      TrimIgnoresBlanks(pre[1..], s, post);
    } else if s == "" {
      TrimBlank(all);
    } else if IsSpace(s[0]) {
      assert all[1..] == pre + s[1..] + post && all[0] == s[0];
      TrimIgnoresBlanks(pre, s[1..], post);
    } else if post != "" {
      assert all[..|all| - 1] == pre + s + post[..|post| - 1] && all[0] == s[0];
      TrimIgnoresBlanks(pre, s, post[..|post| - 1]);
    } else {
      assert all == s;
    }
  }

  lemma {:induction false} LowerTrim(s: string)
    ensures Lower(TrimSpace(s)) == TrimSpace(Lower(s))
  {
    if s != "" && IsSpace(s[0]) {
      LowerTrim(s[1..]);
      assert Lower(s)[1..] == Lower(s[1..]);
    } else if s != "" && IsSpace(s[|s| - 1]) {
      LowerTrim(s[..|s| - 1]);
      assert Lower(s)[..|s| - 1] == Lower(s[..|s| - 1]);
    }
  }

  /** Blanks around either word make no difference. */
  lemma PlaceIgnoresBlanks(namespace: string, client: string, pre: string, post: string, pre': string, post': string)
    requires Blank(pre) && Blank(post) && Blank(pre') && Blank(post')
    ensures Place(pre + namespace + post, pre' + client + post') == Place(namespace, client)
  {
    TrimIgnoresBlanks(pre, namespace, post);
    TrimIgnoresBlanks(pre', client, post');
  }

  /** Nor does case. */
  lemma PlaceIgnoresCase(namespace: string, client: string, namespace': string, client': string)
    requires EqualFold(namespace, namespace') && EqualFold(client, client')
    ensures Place(namespace, client) == Place(namespace', client')
  {
    LowerTrim(namespace);
    LowerTrim(namespace');
    LowerTrim(client);
    LowerTrim(client');
  }

  /** A client decides alone; without one the namespace does, as a client of that name would, unless it is an emulator's. */
  lemma WhoDecides(namespace: string, namespace': string, client: string)
    ensures !Blank(client) ==> Place(namespace, client) == Place(namespace', client)
    ensures Blank(client) && Lower(TrimSpace(namespace)) !in EMULATOR_LABELS ==>
      Place(namespace, client) == Place(namespace', namespace) || Blank(namespace)
    ensures Place(namespace, client) == "another console" <==> Blank(namespace) && Blank(client)
  {
    TrimBlank(namespace);
    TrimBlank(client);
    LabelInitial(namespace, client);
  }

  lemma LabelInitial(namespace: string, client: string)
    ensures ClientLabel(namespace, client) == "" <==> TrimSpace(namespace) == TrimSpace(client) == ""
    ensures ClientLabel(namespace, client) != "another console"
  {
    var c, ns := Lower(TrimSpace(client)), Lower(TrimSpace(namespace));
    var word := if c != "" then c else ns;
    if word != "" {
      assert Capitalized(word)[0] != 'a';
    }
  }

  /** A name that neither table lists is shown as it is, with a capital in front and the rest in small letters. */
  lemma UnknownIsCapitalized(namespace: string, client: string)
    ensures
      var word := if Blank(client) then TrimSpace(namespace) else TrimSpace(client);
      Lower(word) !in PLATFORM_LABELS && (Blank(client) || Lower(word) !in EMULATOR_LABELS) ==>
        IsCapitalized(word, ClientLabel(namespace, client))
  {
    hide Capitalized, IsCapitalized;
    TrimBlank(client);
    NotListed();
    var c, ns := Lower(TrimSpace(client)), Lower(TrimSpace(namespace));
    assert Blank(client) <==> c == "";
    CapitalizedIs(TrimSpace(client));
    CapitalizedIs(TrimSpace(namespace));
  }

  ghost predicate IsCapitalized(word: string, shown: string) {
    && EqualFold(shown, word) && (shown != "" ==> !IsLower(shown[0]))
    && forall i :: 0 < i < |shown| ==> !IsUpper(shown[i])
  }

  lemma CapitalizedIs(word: string)
    ensures IsCapitalized(word, Capitalized(Lower(word)))
  {
  }

  /** A lower-case name without blanks is looked up as it is. */
  lemma PlainWord(s: string)
    requires Plain(s)
    ensures Lower(TrimSpace(s)) == s
  {
    assert TrimSpace(s) == s;
  }

  predicate Plain(word: string) {
    word != "" && forall i :: 0 <= i < |word| ==> !IsUpper(word[i]) && !IsSpace(word[i])
  }

  lemma EmulatorIs(namespace: string, word: string, shown: string)
    requires Plain(word) && word in EMULATOR_LABELS && EMULATOR_LABELS[word] == shown
    ensures ClientLabel(namespace, word) == shown
  {
    PlainWord(word);
  }

  /** The emulators a client can name. */
  lemma KnownEmulators(namespace: string)
    ensures ClientLabel(namespace, "harbor") == "Harbor" && ClientLabel(namespace, "ryujinx") == "Ryujinx"
    ensures ClientLabel(namespace, "eden") == "Eden" && ClientLabel(namespace, "citron") == "Citron"
    ensures ClientLabel(namespace, "pier") == "Pier" && ClientLabel(namespace, "wharf") == "Wharf"
    ensures ClientLabel(namespace, "cemu") == "Cemu" && ClientLabel(namespace, "azahar") == "Azahar"
    ensures ClientLabel(namespace, "dolphin") == "Dolphin" && ClientLabel(namespace, "melonds") == "melonDS"
    ensures ClientLabel(namespace, "xemu") == "xemu" && ClientLabel(namespace, "xenia") == "Xenia"
    ensures ClientLabel(namespace, "pcsx2") == "PCSX2" && ClientLabel(namespace, "rpcs3") == "RPCS3"
    ensures ClientLabel(namespace, "ppsspp") == "PPSSPP" && ClientLabel(namespace, "vita3k") == "Vita3K"
  {
    hide ClientLabel;
    FirstEmulators(namespace);
    MoreEmulators(namespace);
    EmulatorIs(namespace, "dolphin", "Dolphin"); EmulatorIs(namespace, "melonds", "melonDS");
    EmulatorIs(namespace, "xemu", "xemu"); EmulatorIs(namespace, "xenia", "Xenia");
    EmulatorIs(namespace, "pcsx2", "PCSX2"); EmulatorIs(namespace, "rpcs3", "RPCS3");
    EmulatorIs(namespace, "ppsspp", "PPSSPP"); EmulatorIs(namespace, "vita3k", "Vita3K");
  }

  lemma FirstEmulators(namespace: string)
    ensures ClientLabel(namespace, "harbor") == "Harbor" && ClientLabel(namespace, "ryujinx") == "Ryujinx"
    ensures ClientLabel(namespace, "eden") == "Eden" && ClientLabel(namespace, "citron") == "Citron"
  {
    hide ClientLabel;
    EmulatorIs(namespace, "harbor", "Harbor"); EmulatorIs(namespace, "ryujinx", "Ryujinx");
    EmulatorIs(namespace, "eden", "Eden"); EmulatorIs(namespace, "citron", "Citron");
  }

  lemma MoreEmulators(namespace: string)
    ensures ClientLabel(namespace, "pier") == "Pier" && ClientLabel(namespace, "wharf") == "Wharf"
    ensures ClientLabel(namespace, "cemu") == "Cemu" && ClientLabel(namespace, "azahar") == "Azahar"
  {
    hide ClientLabel;
    EmulatorIs(namespace, "pier", "Pier"); EmulatorIs(namespace, "wharf", "Wharf");
    EmulatorIs(namespace, "cemu", "Cemu"); EmulatorIs(namespace, "azahar", "Azahar");
  }

  /** `word` stands for a console, whether a client reports it or, without one, it is the namespace. */
  ghost predicate Names(word: string, shown: string) {
    && (forall namespace :: ClientLabel(namespace, word) == shown)
    && (forall client :: Blank(client) ==> ClientLabel(word, client) == shown)
  }

  lemma PlatformIs(word: string, shown: string)
    requires Plain(word) && word in PLATFORM_LABELS && PLATFORM_LABELS[word] == shown
    ensures Names(word, shown)
  {
    hide TrimSpace, Lower, Blank;
    PlainWord(word);
    forall client | Blank(client) ensures Lower(TrimSpace(client)) == "" {
      TrimBlank(client);
      assert |Lower(TrimSpace(client))| == 0;
    }
    NotListed();
    TablesApart();
  }

  /** What tells the platforms from the emulators. */
  predicate PlatformLike(word: string) {
    |word| < 4 || word[0] == 's' || (|word| == 4 && word[0] == 'w') || (7 <= |word| && word[0] == 'x')
  }

  lemma TablesApart()
    ensures forall word :: word in PLATFORM_LABELS ==> word !in EMULATOR_LABELS
  {
    assert forall word :: word in PLATFORM_LABELS ==> PlatformLike(word);
    assert forall word :: word in EMULATOR_LABELS ==> !PlatformLike(word);
  }

  lemma NotListed()
    ensures "" !in EMULATOR_LABELS && "" !in PLATFORM_LABELS
  {
    assert forall word :: word in EMULATOR_LABELS ==> 0 < |word|;
  }

  lemma FirstPlatforms()
    ensures Names("switch", "Switch") && Names("wiiu", "Wii U") && Names("wii", "Wii") && Names("3ds", "3DS")
    ensures Names("nds", "NDS") && Names("ds", "NDS")
  {
    hide Names;
    PlatformIs("switch", "Switch"); PlatformIs("wiiu", "Wii U"); PlatformIs("wii", "Wii"); PlatformIs("3ds", "3DS");
    PlatformIs("nds", "NDS"); PlatformIs("ds", "NDS");
  }

  /** The platforms. */
  lemma KnownPlatforms()
    ensures Names("switch", "Switch") && Names("wiiu", "Wii U") && Names("wii", "Wii") && Names("3ds", "3DS")
    ensures Names("nds", "NDS") && Names("ds", "NDS") && Names("np", "PS3") && Names("ps3", "PS3")
    ensures Names("xbox360", "Xbox 360") && Names("xbox-360", "Xbox 360") && Names("xbl", "Xbox 360")
  {
    hide Names;
    FirstPlatforms();
    PlatformIs("np", "PS3"); PlatformIs("ps3", "PS3");
    PlatformIs("xbox360", "Xbox 360"); PlatformIs("xbox-360", "Xbox 360"); PlatformIs("xbl", "Xbox 360");
  }
}
