/** The Node formatter (lib/Formatter.php): its configuration defaults, its
    file extension and the common table properties. */
module NodeFormatter {
  import opened PhpArrays
  import opened Schema

  const FileExtension: string := "js"

  /** `init`: the formatter registers indentation 4 and an empty common
      table property path over whatever the base formatter configured. */
  function Init(base: Config): (cfg: Config)
    ensures cfg.indentation == 4 && cfg.commonTableProp == ""
    ensures cfg.useTabs == base.useTabs && cfg.addComment == base.addComment
    ensures cfg.skipM2MTables == base.skipM2MTables
  {
    base.(indentation := 4, commonTableProp := "")
  }

  /** The properties every table starts from. */
  function Defaults(): (d: Entries)
    ensures UniqueKeys(d)
  {
    [("timestamps", Bool(false)), ("underscored", Bool(true)), ("syncOnAssociation", Bool(false))]
  }

  /** What reading a path yields: absent when the file is not there, None when
      its contents do not decode to a JSON object, Some(object) otherwise. */
  type Files = map<string, Option<Entries>>

  /** `is_readable`: the empty path never names a readable file. */
  predicate Readable(files: Files, path: string) {
    path != "" && path in files
  }

  /** `getTableProp`: the defaults, overlaid by the decoded common-property
      file when it is readable and decodes to a non-empty object. */
  function TableProp(files: Files, path: string): Entries {
    if Readable(files, path) && files[path].Some? && files[path].value != [] then
      Merge(Defaults(), files[path].value)
    else
      Defaults()
  }

  /** An unreadable file, invalid JSON or an empty object leave exactly the
      defaults. */
  lemma TablePropFallsBack(files: Files, path: string)
    requires !Readable(files, path) || files[path] == None || files[path] == Some([])
    ensures TableProp(files, path) == Defaults()
  {
  }

  /** With the formatter's own default configuration the path is empty, so
      the defaults are used whatever files exist. */
  lemma InitUsesDefaults(base: Config, files: Files)
    ensures TableProp(files, Init(base).commonTableProp) == Defaults()
  {
  }

  /** Otherwise the override wins key by key, default keys it does not mention
      keep their value and position, and no key appears twice. */
  lemma TablePropOverlay(files: Files, path: string, k: string)
    requires Readable(files, path) && files[path].Some?
    requires UniqueKeys(files[path].value)
    ensures var over := files[path].value;
      Get(TableProp(files, path), k) == if Get(over, k).Some? then Get(over, k) else Get(Defaults(), k)
    ensures UniqueKeys(TableProp(files, path))
    ensures |TableProp(files, path)| >= 3
    ensures TableProp(files, path)[0].0 == "timestamps"
    ensures TableProp(files, path)[1].0 == "underscored"
    ensures TableProp(files, path)[2].0 == "syncOnAssociation"
  {
    var over := files[path].value;
    MergeGet(Defaults(), over, k);
    MergeUnique(Defaults(), over);
    MergeKeepsPositions(Defaults(), over);
  }
}
