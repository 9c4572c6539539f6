/**
 * The writing section: the name an imported file is given, the name and guards of a
 * save, and the view state its handlers replace. The folder access, the file picker and
 * the prompt are browser I/O: their answers are parameters.
 */
module Escritos {
  import opened Wrappers
  import opened Text

  /**
   * The regular expression `\.[^/.]+$` matches at `i`: a '.' at `i`, then one or more
   * characters up to the end, none of them '/' or '.'.
   */
  predicate ExtensionAt(s: string, i: int) {
    && 0 <= i < |s| - 1
    && s[i] == '.'
    && forall j :: i < j < |s| ==> s[j] != '.' && s[j] != '/'
  }

  /** There is at most one place the extension can match. */
  lemma ExtensionUnique(s: string, i: int, k: int)
    requires ExtensionAt(s, i) && ExtensionAt(s, k)
    ensures i == k
  {
  }

  /** The longest suffix of `s` with neither '.' nor '/'. */
  function PlainTail(s: string): (r: string)
    ensures |r| <= |s| && r == s[|s| - |r|..]
    ensures forall j :: |s| - |r| <= j < |s| ==> s[j] != '.' && s[j] != '/'
    ensures |r| < |s| ==> s[|s| - |r| - 1] == '.' || s[|s| - |r| - 1] == '/'
  {
    if s == [] || s[|s| - 1] == '.' || s[|s| - 1] == '/' then []
    else
      var r := PlainTail(s[..|s| - 1]);
      assert s[..|s| - 1][|s| - 1 - |r|..] + [s[|s| - 1]] == s[|s| - 1 - |r|..];
      r + [s[|s| - 1]]
  }

  /** `name.replace(/\.[^/.]+$/, '')`. */
  function StripExtension(s: string): string {
    var t := PlainTail(s);
    if 0 < |t| < |s| && s[|s| - |t| - 1] == '.' then s[..|s| - |t| - 1] else s
  }

  /**
   * Stripping removes exactly the text from the match of the expression to the end, and
   * leaves a name where the expression does not match unchanged.
   */
  lemma StripExtensionSpec(s: string)
    ensures forall i :: ExtensionAt(s, i) ==> StripExtension(s) == s[..i]
    ensures (forall i :: !ExtensionAt(s, i)) ==> StripExtension(s) == s
  {
    var t := PlainTail(s);
    if 0 < |t| < |s| && s[|s| - |t| - 1] == '.' {
      var m := |s| - |t| - 1;
      assert ExtensionAt(s, m);
      forall i | ExtensionAt(s, i) ensures StripExtension(s) == s[..i] {
        ExtensionUnique(s, i, m);
      }
    }
  }

  /** The name a file loaded from disk gets: its last extension replaced by ".txt". */
  function ImportedName(fileName: string): (r: string)
    ensures |r| >= 4 && r[|r| - 4..] == ".txt"
  {
    StripExtension(fileName) + ".txt"
  }

  /**
   * Only the last extension goes: `base.ext` becomes `base.txt` whatever dots `base`
   * holds (so "a.b.docx" becomes "a.b.txt").
   */
  lemma ImportedNameReplacesLast(base: string, ext: string)
    requires ext != [] && forall j :: 0 <= j < |ext| ==> ext[j] != '.' && ext[j] != '/'
    ensures ImportedName(base + "." + ext) == base + ".txt"
  {
    var s := base + "." + ext;
    assert forall j :: |base| < j < |s| ==> s[j] == ext[j - |base| - 1];
    assert ExtensionAt(s, |base|);
    StripExtensionSpec(s);
    assert s[..|base|] == base;
  }

  /** A name without a dot just gains ".txt". */
  lemma ImportedNameWithoutDot(name: string)
    requires '.' !in name
    ensures ImportedName(name) == name + ".txt"
  {
    StripExtensionSpec(name);
  }

  /** What a press of "Guardar" leads to, before the write itself. */
  datatype SaveStep = AlertEmpty | Aborted | Write(fileName: string)

  /**
   * `handleSave` up to the write: blank content is refused; with no current name the
   * prompt's answer is used, an empty or cancelled answer aborts, and a name without a
   * '.' gets ".txt"; a current name is used as it is.
   */
  function SaveStepOf(content: string, currentName: string, prompted: Option<string>): (r: SaveStep)
    ensures r == AlertEmpty <==> IsBlank(content)
    ensures r == Aborted <==> !IsBlank(content) && currentName == "" && prompted.GetOr("") == ""
    ensures r.Write? && currentName != "" ==> r.fileName == currentName
    ensures r.Write? && currentName == "" ==>
      r.fileName == (if '.' in prompted.value then prompted.value else prompted.value + ".txt")
    ensures r.Write? ==> r.fileName != "" && (currentName == "" ==> '.' in r.fileName)
  {
    TrimEmptyIffBlank(content);
    if Trim(content) == "" then AlertEmpty
    else if currentName != "" then Write(currentName)
    else
      var name := prompted.GetOr("");
      if name == "" then Aborted
      else if '.' in name then Write(name)
      else
        assert (name + ".txt")[|name|] == '.';
        Write(name + ".txt")
  }

  datatype LocalFile = LocalFile(name: string, size: nat, lastModified: int)

  datatype ViewMode = List | Editor | FolderPicker

  /** Which of the section's screens is drawn. */
  datatype Screen = UnsupportedScreen | PickerScreen | EditorScreen | ListScreen

  class EscritosSection {
    var files: seq<LocalFile>
    var hasFolder: bool
    var folderName: Option<string>
    var isSupported: bool
    var viewMode: ViewMode
    var editorContent: string
    var currentFileName: string
    var saving: bool

    constructor ()
      ensures files == [] && !hasFolder && folderName == None && isSupported
      ensures viewMode == List && editorContent == "" && currentFileName == "" && !saving
    {
      files := [];
      hasFolder := false;
      folderName := None;
      isSupported := true;
      viewMode := List;
      editorContent := "";
      currentFileName := "";
      saving := false;
    }

    /** The render guards, in order: unsupported browser, folder picker, editor, list. */
    function CurrentScreen(): (s: Screen)
      reads this
      ensures s == UnsupportedScreen <==> !isSupported
      ensures s == PickerScreen <==> isSupported && (viewMode == FolderPicker || !hasFolder)
      ensures s == EditorScreen <==> isSupported && hasFolder && viewMode == Editor
    {
      if !isSupported then UnsupportedScreen
      else if viewMode == FolderPicker || !hasFolder then PickerScreen
      else if viewMode == Editor then EditorScreen
      else ListScreen
    }

    /** `handleSelectFolder`, given whether access was granted, the folder's name and its listing. */
    method SelectFolder(granted: bool, name: Option<string>, listing: seq<LocalFile>)
      modifies this
      ensures granted ==> hasFolder && viewMode == List && folderName == name && files == listing
      ensures !granted ==>
        hasFolder == old(hasFolder) && viewMode == old(viewMode) && folderName == old(folderName) && files == old(files)
      ensures editorContent == old(editorContent) && currentFileName == old(currentFileName)
      ensures saving == old(saving) && isSupported == old(isSupported)
    {
      if granted {
        hasFolder := true;
        viewMode := List;
        folderName := name;
        files := listing;
      }
    }

    /** `handleChangeFolder`: the folder is forgotten, so the picker is shown next. */
    method ChangeFolder()
      modifies this
      ensures !hasFolder && folderName == None && files == []
      ensures isSupported == old(isSupported) ==> (isSupported ==> CurrentScreen() == PickerScreen)
      ensures viewMode == old(viewMode) && editorContent == old(editorContent)
      ensures currentFileName == old(currentFileName) && saving == old(saving) && isSupported == old(isSupported)
    {
      hasFolder := false;
      folderName := None;
      files := [];
    }

    /** `handleNewDoc`: an empty editor with no name. */
    method NewDoc()
      modifies this
      ensures editorContent == "" && currentFileName == "" && viewMode == Editor
      ensures files == old(files) && hasFolder == old(hasFolder) && folderName == old(folderName)
      ensures saving == old(saving) && isSupported == old(isSupported)
    {
      editorContent := "";
      currentFileName := "";
      viewMode := Editor;
    }

    /** `handleFileSelect`, given the picked file's name and text, if one was picked. */
    method FileSelect(picked: Option<(string, string)>)
      modifies this
      ensures picked.Some? ==>
        editorContent == picked.value.1 && currentFileName == ImportedName(picked.value.0) && viewMode == Editor
      ensures picked.None? ==>
        editorContent == old(editorContent) && currentFileName == old(currentFileName) && viewMode == old(viewMode)
      ensures files == old(files) && hasFolder == old(hasFolder) && folderName == old(folderName)
      ensures saving == old(saving) && isSupported == old(isSupported)
    {
      if picked.Some? {
        editorContent := picked.value.1;
        currentFileName := ImportedName(picked.value.0);
        viewMode := Editor;
      }
    }

    /** `handleEdit`, given the stored file's text if it could be read; returns the alert shown. */
    method Edit(fileName: string, text: Option<string>) returns (alert: Option<string>)
      modifies this
      ensures text.Some? ==>
        alert == None && editorContent == text.value && currentFileName == fileName && viewMode == Editor
      ensures text.None? ==>
        alert == Some("Error al cargar archivo") && editorContent == old(editorContent) && currentFileName == old(currentFileName) && viewMode == old(viewMode)
      ensures files == old(files) && hasFolder == old(hasFolder) && folderName == old(folderName)
      ensures saving == old(saving) && isSupported == old(isSupported)
    {
      if text.Some? {
        editorContent := text.value;
        currentFileName := fileName;
        viewMode := Editor;
        alert := None;
      } else {
        alert := Some("Error al cargar archivo");
      }
    }

    /**
     * `handleSave`, given the prompt's answer, whether the write succeeds and the listing
     * after it. Returns the write attempted, if any, and the alert shown.
     */
    method Save(prompted: Option<string>, writeOk: bool, listing: seq<LocalFile>)
      returns (written: Option<(string, string)>, alert: Option<string>)
      modifies this
      ensures var step := SaveStepOf(old(editorContent), old(currentFileName), prompted);
        && (step == AlertEmpty ==> written == None && alert == Some("El documento está vacío"))
        && (step == Aborted ==> written == None && alert == None)
        && (step.Write? ==> written == Some((step.fileName, old(editorContent))) && !saving)
        && (step.Write? && writeOk ==>
              alert == None && files == listing && viewMode == List && editorContent == "" && currentFileName == "")
        && (step.Write? && !writeOk ==>
              alert == Some("Error al guardar") && files == old(files) && viewMode == old(viewMode) && editorContent == old(editorContent) && currentFileName == old(currentFileName))
        && (!step.Write? ==>
              files == old(files) && viewMode == old(viewMode) && saving == old(saving) && editorContent == old(editorContent) && currentFileName == old(currentFileName))
      ensures hasFolder == old(hasFolder) && folderName == old(folderName) && isSupported == old(isSupported)
    {
      var step := SaveStepOf(editorContent, currentFileName, prompted);
      written := None;
      alert := None;
      if step == AlertEmpty {
        alert := Some("El documento está vacío");
      } else if step.Write? {
        saving := true;
        written := Some((step.fileName, editorContent));
        if writeOk {
          files := listing;
          viewMode := List;
          editorContent := "";
          currentFileName := "";
        } else {
          alert := Some("Error al guardar");
        }
        saving := false;
      }
    }
  }
}
