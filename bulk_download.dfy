/**
 * The bulk-download dialog: a selection of listed files, toggled one by
 * one or all at once, and downloads started one second apart.
 */
module BulkDownload {
  import opened CsvUtils

  /** The file names of the entries, as a set. */
  function Names(s: seq<FileInfo>): set<string>
  {
    set i | 0 <= i < |s| :: s[i].fileName
  }

  predicate UniqueNames(s: seq<FileInfo>)
  {
    forall i, j :: 0 <= i < j < |s| ==> s[i].fileName != s[j].fileName
  }

  /** `selected.findIndex(item => item.file_name === name)`. */
  function FindByName(s: seq<FileInfo>, name: string): (k: int)
    ensures -1 <= k < |s|
    ensures k >= 0 ==> s[k].fileName == name && forall i :: 0 <= i < k ==> s[i].fileName != name
    ensures k == -1 <==> name !in Names(s)
  {
    if s == [] then -1
    else if s[0].fileName == name then 0
    else
      var k := FindByName(s[1..], name);
      assert forall i :: 1 <= i < |s| ==> s[i] == s[1..][i - 1];
      assert Names(s) == {s[0].fileName} + Names(s[1..]);
      if k == -1 then -1 else k + 1
  }

  /** The selection after `handleToggle(file)`: appended when absent, the entry of that name spliced out otherwise. */
  function Toggled(selected: seq<FileInfo>, file: FileInfo): seq<FileInfo>
  {
    var k := FindByName(selected, file.fileName);
    if k == -1 then selected + [file] else selected[..k] + selected[k + 1..]
  }

  lemma NamesAppend(s: seq<FileInfo>, f: FileInfo)
    ensures Names(s + [f]) == Names(s) + {f.fileName}
  {
    var t := s + [f];
    assert t[|s|] == f;
    forall x | x in Names(s) ensures x in Names(t) {
      var i :| 0 <= i < |s| && s[i].fileName == x;
      assert t[i] == s[i];
    }
  }

  lemma NamesRemove(s: seq<FileInfo>, k: nat)
    requires k < |s| && UniqueNames(s)
    ensures Names(s[..k] + s[k + 1..]) == Names(s) - {s[k].fileName}
  {
    var t := s[..k] + s[k + 1..];
    forall i | 0 <= i < |t| ensures t[i] == (if i < k then s[i] else s[i + 1]) {
    }
    forall x | x in Names(s) - {s[k].fileName} ensures x in Names(t) {
      var i :| 0 <= i < |s| && s[i].fileName == x;
      if i < k { assert t[i] == s[i]; } else { assert t[i - 1] == s[i]; }
    }
  }

  /**
   * A toggle flips whether a file of that name is selected and keeps the
   * selection free of repeated names.
   */
  lemma ToggleFlips(selected: seq<FileInfo>, file: FileInfo)
    requires UniqueNames(selected)
    ensures var t := Toggled(selected, file);
            && UniqueNames(t)
            && (file.fileName in Names(t) <==> file.fileName !in Names(selected))
            && Names(t) - {file.fileName} == Names(selected) - {file.fileName}
  {
    var k := FindByName(selected, file.fileName);
    if k == -1 {
      NamesAppend(selected, file);
    } else {
      NamesRemove(selected, k);
    }
  }

  /** Toggling a file that is not selected, then toggling it again, restores the selection. */
  lemma ToggleTwiceRestores(selected: seq<FileInfo>, file: FileInfo)
    requires file.fileName !in Names(selected)
    ensures Toggled(Toggled(selected, file), file) == selected
  {
    var t := selected + [file];
    NamesAppend(selected, file);
    var k := FindByName(t, file.fileName);
    assert t[|selected|].fileName == file.fileName;
    assert forall i :: 0 <= i < |selected| ==> t[i] == selected[i];
    assert t[..|selected|] == selected;
  }

  /**
   * Toggling a selected file twice moves it to the end: the second toggle
   * appends the file where the first removed its entry.
   */
  lemma ToggleTwiceMoves(selected: seq<FileInfo>, file: FileInfo)
    requires UniqueNames(selected) && file.fileName in Names(selected)
    ensures var k := FindByName(selected, file.fileName);
            Toggled(Toggled(selected, file), file) == selected[..k] + selected[k + 1..] + [file]
  {
    var k := FindByName(selected, file.fileName);
    NamesRemove(selected, k);
  }

  lemma {:induction false} NamesCount(s: seq<FileInfo>)
    requires UniqueNames(s)
    ensures |Names(s)| == |s|
  {
    if s != [] {
      var init := s[..|s| - 1];
      NamesCount(init);
      assert s == init + [s[|s| - 1]];
      NamesAppend(init, s[|s| - 1]);
      assert s[|s| - 1].fileName !in Names(init);
    }
  }

  /**
   * Select-all compares lengths only; with the selection drawn from the
   * listed files and no name repeated, equal lengths do mean that every
   * listed file is selected.
   */
  lemma EqualLengthsMeanAllSelected(selected: seq<FileInfo>, files: seq<FileInfo>)
    requires UniqueNames(selected) && UniqueNames(files)
    requires Names(selected) <= Names(files)
    requires |selected| == |files|
    ensures Names(selected) == Names(files)
  {
    NamesCount(selected);
    NamesCount(files);
    var extra := Names(files) - Names(selected);
    assert Names(files) == Names(selected) + extra;
    assert |Names(files)| == |Names(selected)| + |extra|;
  }

  /** The `forEach` that starts the `i`-th download after `i * 1000` ms. */
  method ScheduleDownloads(selected: seq<FileInfo>) returns (schedule: seq<(int, string)>)
    ensures |schedule| == |selected|
    ensures forall i :: 0 <= i < |selected| ==> schedule[i] == (i * 1000, selected[i].fileName)
    ensures forall i, j :: 0 <= i < j < |schedule| ==> schedule[i].0 < schedule[j].0
  {
    schedule := [];
    var index := 0;
    while index < |selected|
      invariant 0 <= index <= |selected|
      invariant |schedule| == index
      invariant forall i :: 0 <= i < index ==> schedule[i] == (i * 1000, selected[i].fileName)
    {
      schedule := schedule + [(index * 1000, selected[index].fileName)];
      index := index + 1;
    }
  }

  class BulkDownloadButton {
    /** The `files` property. */
    var files: seq<FileInfo>
    var open: bool
    var selected: seq<FileInfo>
    /** The timers started so far: `(delay in ms, file name)`. */
    var downloads: seq<(int, string)>

    /** Listed names are distinct (names of one directory) and only listed files are selected, once each. */
    predicate Valid()
      reads this
    {
      UniqueNames(files) && UniqueNames(selected) && Names(selected) <= Names(files)
    }

    constructor(files: seq<FileInfo>)
      requires UniqueNames(files)
      ensures Valid()
      ensures this.files == files && !open && selected == [] && downloads == []
    {
      this.files := files;
      open := false;
      selected := [];
      downloads := [];
    }

    /** `handleOpen`. */
    method HandleOpen()
      requires Valid()
      modifies this
      ensures Valid()
      ensures open && selected == [] && unchanged(this`files, this`downloads)
    {
      open := true;
      selected := [];
    }

    /** `handleClose`. */
    method HandleClose()
      modifies this
      ensures !open && unchanged(this`selected, this`files, this`downloads)
    {
      open := false;
    }

    /** `handleToggle(file)` for a listed file. */
    method HandleToggle(file: FileInfo)
      requires Valid() && file in files
      modifies this
      ensures Valid()
      ensures selected == Toggled(old(selected), file)
      ensures unchanged(this`files, this`open, this`downloads)
    {
      ToggleFlips(selected, file);
      assert file.fileName in Names(files) by {
        var i :| 0 <= i < |files| && files[i] == file;
      }
      var currentIndex := FindByName(selected, file.fileName);
      var newSelected := selected;
      if currentIndex == -1 {
        newSelected := newSelected + [file];
      } else {
        newSelected := newSelected[..currentIndex] + newSelected[currentIndex + 1..];
      }
      selected := newSelected;
    }

    /** `handleSelectAll`. */
    method HandleSelectAll()
      requires Valid()
      modifies this
      ensures Valid()
      ensures selected == (if |old(selected)| == |files| then [] else files)
      ensures unchanged(this`files, this`open, this`downloads)
    {
      if |selected| == |files| {
        selected := [];
      } else {
        selected := files;
      }
    }

    /** `handleDownload`. */
    method HandleDownload()
      modifies this
      ensures old(selected) == [] ==> unchanged(this`open, this`downloads)
      ensures old(selected) != [] ==>
                && !open
                && |downloads| == |old(downloads)| + |selected|
                && downloads[..|old(downloads)|] == old(downloads)
                && forall i :: 0 <= i < |selected| ==> downloads[|old(downloads)| + i] == (i * 1000, selected[i].fileName)
      ensures unchanged(this`selected, this`files)
    {
      if |selected| == 0 {
        return;
      }
      var schedule := ScheduleDownloads(selected);
      downloads := downloads + schedule;
      HandleClose();
    }
  }
}
