/** File entries and extension trimming (pkg/files/files.go). */
module Files {
  import opened StringOps

  /** A file found in a directory tree: its directory, its base name and that name's extension. */
  datatype FileEntry = FileEntry(path: string, name: string, extension: string)

  /**
   * The entry TrimExtension produces: when the entry's extension is one of `extensions`,
   * the name loses that suffix and the extension is recomputed from the shorter name;
   * otherwise the entry is unchanged.
   */
  function Trimmed(file: FileEntry, extensions: seq<string>): FileEntry {
    if file.extension in extensions then
      var name := TrimSuffix(file.name, file.extension);
      file.(name := name, extension := Ext(name))
    else file
  }

  /**
   * TrimExtension: every listed extension is compared with, and trimmed from, the ORIGINAL
   * entry, so however many entries of the list match, the result is one trim of `file`.
   */
  method TrimExtension(file: FileEntry, extensions: seq<string>) returns (trimmed: FileEntry)
    ensures trimmed == Trimmed(file, extensions)
  {
    trimmed := file;
    for i := 0 to |extensions|
      invariant trimmed == Trimmed(file, extensions[..i])
    {
      assert extensions[..i + 1] == extensions[..i] + [extensions[i]];
      var ext := extensions[i];
      if file.extension == ext {
        var name := TrimSuffix(file.name, ext);
        trimmed := trimmed.(name := name, extension := Ext(name));
      }
    }
  }

  /** An entry as DirTree builds it: the extension is the one of the name. */
  predicate WellFormed(file: FileEntry) {
    file.extension == Ext(file.name)
  }

  /**
   * What a trim does: the path never changes; without a listed extension nothing changes;
   * with one, the name is the old one without that suffix (removed only when present) and
   * the extension is that of the new name.
   */
  lemma TrimmedFields(file: FileEntry, extensions: seq<string>)
    ensures var r := Trimmed(file, extensions);
      && r.path == file.path
      && (file.extension !in extensions ==> r == file)
      && (file.extension in extensions ==>
            && (HasSuffix(file.name, file.extension) ==> r.name + file.extension == file.name)
            && (!HasSuffix(file.name, file.extension) ==> r.name == file.name)
            && WellFormed(r))
  {
  }

  /** On a well-formed entry a matching trim removes exactly the extension and keeps it well formed. */
  lemma TrimmedWellFormed(file: FileEntry, extensions: seq<string>)
    requires WellFormed(file)
    requires file.extension in extensions
    ensures var r := Trimmed(file, extensions);
      r.name + file.extension == file.name && WellFormed(r)
  {
  }

  /** Trims do not stack: with both ".gz" and ".tar" listed, "archive.tar.gz" loses only ".gz". */
  lemma NoStackingExample()
    ensures Trimmed(FileEntry("dir", "archive.tar.gz", ".gz"), [".gz", ".tar"])
         == FileEntry("dir", "archive.tar", ".tar")
  {
    assert TrimSuffix("archive.tar.gz", ".gz") == "archive.tar";
    assert Ext("archive.tar") == ".tar" by {
      assert "archive.tar"[..10] == "archive.ta";
      assert "archive.ta"[..9] == "archive.t";
      assert "archive.t"[..8] == "archive.";
      assert Ext("archive.") == ".";
    }
  }
}
