/** The profile directory (`~/.airs`, src/io.rs) and the configuration file kept in it
    (src/config.rs). File contents are held already parsed; paths, the home directory and
    the JSON text itself are not modelled. */
module Io {
  import opened Wrappers
  import opened ChatModel
  import opened Image
  import opened Sorting

  /** A profile file as the three serde readings of it see it: its `kind` tag, the file
      read as a chat `Intermediary`, and the file read as an `ImageGeneration`. `None`
      means that reading fails (a missing or ill-typed field, or text that is not JSON). */
  datatype Document = Document(
    kind: Option<string>,
    chat: Option<Intermediary>,
    image: Option<ImageGeneration>)

  /** The profile files of the directory, by name (`<name>.json`). */
  type Store = map<string, Document>

  /** `read_profile_file`: the named profile's contents, failing when there is no such file. */
  function ReadProfileFile(store: Store, name: string): (r: Result<Document>)
    ensures r.Ok? <==> name in store
    ensures r.Ok? ==> r.value == store[name]
    ensures r.Err? ==> r.error == ProfileNotFound(name)
  {
    if name in store then Ok(store[name]) else Err(ProfileNotFound(name))
  }

  /** `Config`: the one setting, the name of the default profile. */
  datatype Config = Config(defaultProfile: Option<string>)

  /** config.json on disk. */
  datatype ConfigFile = NoConfigFile | ConfigText(config: Config) | UnparsableConfig

  /** `read_config` of config.rs over `read_config` of io.rs: a missing file reads as the
      text "{}", that is, a config with no default profile; unparsable text fails. */
  function ReadConfig(file: ConfigFile): (r: Result<Config>)
    ensures file.NoConfigFile? ==> r == Ok(Config(None))
    ensures file.ConfigText? ==> r == Ok(file.config)
    ensures r.Err? <==> file.UnparsableConfig?
    ensures file.UnparsableConfig? ==> r == Err(InvalidConfig)
  {
    match file
    case NoConfigFile => Ok(Config(None))
    case ConfigText(c) => Ok(c)
    case UnparsableConfig => Err(InvalidConfig)
  }

  /** The directory's file stems with every "config" entry dropped, in directory order. */
  function WithoutConfig(stems: seq<string>): (r: seq<string>)
    ensures multiset(r) == multiset(stems)["config" := 0]
    decreases |stems|
  {
    if stems == [] then []
    else
      var front, last := stems[..|stems| - 1], stems[|stems| - 1];
      assert stems == front + [last];
      WithoutConfig(front) + (if last == "config" then [] else [last])
  }

  /** What `list_profiles` returns: nothing when the directory is missing, otherwise
      the names of its entries other than "config", sorted. */
  function Listing(present: bool, stems: seq<string>): (r: seq<string>)
    ensures Sorted(r)
    ensures !present ==> r == []
    ensures present ==> multiset(r) == multiset(stems)["config" := 0]
  {
    if present then Sort(WithoutConfig(stems)) else []
  }

  /** The listing names exactly the directory's entries other than "config". */
  lemma ListingMembers(present: bool, stems: seq<string>, x: string)
    ensures x in Listing(present, stems) <==> present && x in stems && x != "config"
  {
    var r := Listing(present, stems);
    assert x in r <==> x in multiset(r);
    assert x in stems <==> x in multiset(stems);
  }

  /** A file named config.json adds a "config" stem, which the listing ignores. */
  lemma ConfigEntryIgnored(stems: seq<string>)
    ensures WithoutConfig(stems + ["config"]) == WithoutConfig(stems)
  {
    var ext := stems + ["config"];
    assert ext[..|ext| - 1] == stems;
    assert ext[|ext| - 1] == "config";
  }

  /** The profile directory. The source reaches it through the file system; here its
      state is held in fields, and each operation reads or updates them. */
  class Home {
    /** Whether the directory exists. */
    var present: bool
    /** The file stems of its entries, in the order the directory yields them. */
    var stems: seq<string>
    /** Its config.json. */
    var config: ConfigFile

    /** `list_profiles`: collect the stems other than "config", then sort them. */
    method ListProfiles() returns (names: seq<string>)
      ensures names == Listing(present, stems)
      ensures Sorted(names) && "config" !in names
      ensures forall x :: x in names <==> present && x in stems && x != "config"
      ensures !present ==> names == []
      ensures present ==> multiset(names) == multiset(stems)["config" := 0]
    {
      if !present {
        return [];
      }
      var ret: seq<string> := [];
      for i := 0 to |stems|
        invariant ret == WithoutConfig(stems[..i])
      {
        assert stems[..i + 1][..i] == stems[..i];
        var name := stems[i];
        if name == "config" {
          continue;
        }
        ret := ret + [name];
      }
      assert stems[..|stems|] == stems;
      names := Sort(ret);
      forall x ensures x in names <==> present && x in stems && x != "config" {
        ListingMembers(present, stems, x);
      }
    }

    /** `set_default_profile`: read the config, set its default profile and write it back
        (which creates config.json if it was missing). Fails when the config does not
        parse, or when there is no directory to write into. */
    method SetDefaultProfile(name: string) returns (r: Result<()>)
      modifies this`config, this`stems
      ensures r.Ok? <==> ReadConfig(old(config)).Ok? && present
      ensures old(config).UnparsableConfig? ==> r == Err(InvalidConfig)
      ensures !old(config).UnparsableConfig? && !present ==> r == Err(ConfigWriteFailed)
      ensures r.Ok? ==> config == ConfigText(Config(Some(name))) && "config" in stems
      ensures r.Err? ==> config == old(config) && stems == old(stems)
      ensures WithoutConfig(stems) == WithoutConfig(old(stems))
    {
      var current := ReadConfig(config);
      if current.Err? {
        return Err(current.error);
      }
      if !present {
        return Err(ConfigWriteFailed);
      }
      config := ConfigText(current.value.(defaultProfile := Some(name)));
      if "config" !in stems {
        ConfigEntryIgnored(stems);
        stems := stems + ["config"];
      }
      r := Ok(());
    }
  }
}
