/** Profile dispatch and the default-profile slot (src/profile.rs): fetch a profile by
    name and kind, read and set the default profile, and list the profiles with the
    default one marked. */
module Profiles {
  import opened Wrappers
  import opened ChatModel
  import opened Image
  import opened Io
  import ChatResolver

  /** The supported request kinds. */
  datatype Kind = ChatCompletionKind | ImageGenerationKind

  const ChatKindTag := "https://api.openai.com/v1/chat/completions"
  const ImageKindTag := "https://api.openai.com/v1/image/generate"

  /** The `kind` tag a profile file carries for each kind. */
  function Tag(k: Kind): (t: string)
    ensures t == ChatKindTag <==> k == ChatCompletionKind
    ensures t == ImageKindTag <==> k == ImageGenerationKind
  {
    assert ChatKindTag[30] != ImageKindTag[30];
    match k
    case ChatCompletionKind => ChatKindTag
    case ImageGenerationKind => ImageKindTag
  }

  /** The kind a `kind` tag names, if any. */
  function KindOf(tag: string): (k: Option<Kind>)
    ensures k.Some? ==> Tag(k.value) == tag
    ensures k.None? ==> forall other :: Tag(other) != tag
  {
    if tag == ChatKindTag then Some(ChatCompletionKind)
    else if tag == ImageKindTag then Some(ImageGenerationKind)
    else None
  }

  /** Tags and kinds are in one-to-one correspondence. */
  lemma KindTagRoundTrip(k: Kind)
    ensures KindOf(Tag(k)) == Some(k)
  {
    assert ChatKindTag[30] != ImageKindTag[30];
  }

  /** `Profile`: a resolved profile tagged with its kind. */
  datatype Profile =
    | OpenAIV1ChatCompletion(chat: ChatCompletion)
    | OpenAIV1ImageGeneration(image: ImageGeneration)

  /** `profile_get`: "default" is the built-in chat default and reads nothing; any other
      name is read, its `kind` tag picks the resolver, chat profiles go through the
      inheritance resolver and image profiles are taken from the file as they are. */
  function ProfileGet(store: Store, name: string): (r: Result<Profile>)
    ensures name == "default" ==> r == Ok(OpenAIV1ChatCompletion(Default()))
    ensures name != "default" && name !in store ==> r == Err(ProfileNotFound(name))
    ensures name != "default" && name in store && store[name].kind.None? ==>
              r == Err(InvalidProfileFormat(name))
    ensures r.Ok? ==>
              name == "default" || (name in store && store[name].kind.Some? && KindOf(store[name].kind.value).Some?)
    ensures r.Ok? && r.value.OpenAIV1ImageGeneration? ==>
              name in store && store[name].kind == Some(ImageKindTag) && store[name].image == Some(r.value.image)
  {
    if name == "default" then
      Ok(OpenAIV1ChatCompletion(Default()))
    else
      var doc :- ReadProfileFile(store, name);
      if doc.kind.None? then
        Err(InvalidProfileFormat(name))
      else
        match KindOf(doc.kind.value)
        case None => Err(UnknownProfileKind(doc.kind.value))
        case Some(ChatCompletionKind) =>
          var chat :- ChatResolver.Resolve(store, name);
          Ok(OpenAIV1ChatCompletion(chat))
        case Some(ImageGenerationKind) =>
          if doc.image.None? then Err(InvalidProfileFormat(name))
          else Ok(OpenAIV1ImageGeneration(doc.image.value))
  }

  /** A chat-tagged profile is exactly what the chat resolver makes of it, failures included. */
  lemma ChatKindDispatch(store: Store, name: string)
    requires name != "default" && name in store && store[name].kind == Some(ChatKindTag)
    ensures ChatResolver.Resolve(store, name).Ok? ==>
              ProfileGet(store, name) == Ok(OpenAIV1ChatCompletion(ChatResolver.Resolve(store, name).value))
    ensures ChatResolver.Resolve(store, name).Err? ==>
              ProfileGet(store, name) == Err(ChatResolver.Resolve(store, name).error)
  {
  }

  /** An image-tagged profile is the file's image reading, with no inheritance applied;
      it fails when the file does not read as an image profile. */
  lemma ImageKindDispatch(store: Store, name: string)
    requires name != "default" && name in store && store[name].kind == Some(ImageKindTag)
    ensures store[name].image.Some? ==> ProfileGet(store, name) == Ok(OpenAIV1ImageGeneration(store[name].image.value))
    ensures store[name].image.None? ==> ProfileGet(store, name) == Err(InvalidProfileFormat(name))
  {
    KindTagRoundTrip(ImageGenerationKind);
  }

  /** Any other tag fails. */
  lemma UnknownKindFails(store: Store, name: string)
    requires name != "default" && name in store && store[name].kind.Some?
    requires store[name].kind.value != ChatKindTag && store[name].kind.value != ImageKindTag
    ensures ProfileGet(store, name) == Err(UnknownProfileKind(store[name].kind.value))
  {
  }

  /** `profile_current_text`: the stored default profile, or "default" when none is set. */
  function ProfileCurrentText(config: ConfigFile): (r: Result<string>)
    ensures r.Err? <==> config.UnparsableConfig?
    ensures config.UnparsableConfig? ==> r == Err(InvalidConfig)
    ensures r.Ok? ==> r.value == "default" || config == ConfigText(Config(Some(r.value)))
    ensures forall n :: config == ConfigText(Config(Some(n))) ==> r == Ok(n)
    ensures config.NoConfigFile? ==> r == Ok("default")
  {
    var c :- ReadConfig(config);
    Ok(c.defaultProfile.GetOr("default"))
  }

  /** `profile_use`: make `name` the default profile, provided it is listed. */
  method ProfileUse(home: Home, name: string) returns (r: Result<()>)
    modifies home`config, home`stems
    ensures r.Ok? <==> name in old(Listing(home.present, home.stems)) && !old(home.config).UnparsableConfig?
    ensures name !in old(Listing(home.present, home.stems)) ==> r == Err(ProfileNotFound(name))
    ensures name in old(Listing(home.present, home.stems)) && old(home.config).UnparsableConfig? ==>
              r == Err(InvalidConfig)
    ensures r.Ok? ==> home.config == ConfigText(Config(Some(name))) && "config" in home.stems
    ensures r.Ok? ==> ProfileCurrentText(home.config) == Ok(name)
    ensures r.Err? ==> home.config == old(home.config) && home.stems == old(home.stems)
    ensures Listing(home.present, home.stems) == old(Listing(home.present, home.stems))
  {
    var profiles := home.ListProfiles();
    if name !in profiles {
      return Err(ProfileNotFound(name));
    }
    assert home.present;
    r := home.SetDefaultProfile(name);
  }

  /** `line` lists `name`: two spaces or "* " and then the name, the star exactly when
      `name` is the current default. */
  predicate MarkedLine(line: string, name: string, current: string) {
    && |line| == |name| + 2
    && line[2..] == name
    && line[1] == ' '
    && (line[0] == '*' <==> name == current)
    && (line[0] == '*' || line[0] == ' ')
  }

  /** The line `profile_list` prints for `name`. */
  function Line(name: string, current: string): (line: string)
    ensures MarkedLine(line, name, current)
  {
    var line := if name == current then "* " + name else "  " + name;
    assert line[2..] == name;
    line
  }

  /** `profile_list`: one line per listed profile, in listing order, the current default
      marked. */
  method ProfileList(home: Home) returns (r: Result<seq<string>>)
    ensures r.Err? <==> home.config.UnparsableConfig?
    ensures home.config.UnparsableConfig? ==> r == Err(InvalidConfig)
    ensures r.Ok? ==>
      var names, current := Listing(home.present, home.stems), ProfileCurrentText(home.config).value;
      && |r.value| == |names|
      && forall i :: 0 <= i < |names| ==> MarkedLine(r.value[i], names[i], current)
  {
    var current := ProfileCurrentText(home.config);
    if current.Err? {
      return Err(current.error);
    }
    var names := home.ListProfiles();
    var lines: seq<string> := [];
    for i := 0 to |names|
      invariant |lines| == i
      invariant forall j :: 0 <= j < i ==> MarkedLine(lines[j], names[j], current.value)
    {
      lines := lines + [Line(names[i], current.value)];
    }
    r := Ok(lines);
  }
}
