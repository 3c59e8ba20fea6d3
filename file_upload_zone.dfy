/** The file drop zone: which files it accepts, the drag highlight, and which of the
    dropped or chosen files it hands on. */
module FileUploadZone {
  import opened Wrappers
  import opened Text

  /** The parts of a browser `File` the zone looks at; `mimeType` is `file.type`. */
  datatype File = File(name: string, mimeType: string)

  /** `file.type === "text/csv" || file.name.toLowerCase().endsWith(".csv")` */
  predicate IsCsvFile(f: File)
  {
    f.mimeType == "text/csv" || EndsWith(ToLower(f.name), ".csv")
  }

  const REJECT_MESSAGE := "Please upload a CSV file (.csv) only. Excel files (.xls, .xlsx) are not supported."

  /** What `handleFile` does with a file: hands it on unchanged when it is a CSV file,
      and otherwise hands on nothing. */
  function Accept(f: File): (r: Option<File>)
    ensures r.Some? <==> IsCsvFile(f)
    ensures r.Some? ==> r.value == f
  {
    if !IsCsvFile(f) then None else Some(f)
  }

  /** A name that ends in ".csv" in any letter case is accepted whatever its type, so
      an upper-case "LEADS.CSV" sent as `application/vnd.ms-excel` still goes through. */
  lemma CsvExtensionAccepted(f: File)
    requires |f.name| >= 4
    requires f.name[|f.name| - 4] == '.'
    requires LowerChar(f.name[|f.name| - 3]) == 'c' && LowerChar(f.name[|f.name| - 2]) == 's'
    requires LowerChar(f.name[|f.name| - 1]) == 'v'
    ensures Accept(f) == Some(f)
  {
    var l := ToLower(f.name);
    var n := |l|;
    assert l[n - 4] == LowerChar('.') == '.';
    assert l[n - 3] == 'c' && l[n - 2] == 's' && l[n - 1] == 'v';
    assert l[n - 4..] == [l[n - 4], l[n - 3], l[n - 2], l[n - 1]];
    assert EndsWith(l, ".csv");
  }

  /** A file whose type is not `text/csv` and whose name does not end in ".csv" is
      refused: an Excel sheet "leads.xlsx" among them. */
  lemma OtherFileRejected(f: File)
    requires f.mimeType != "text/csv"
    requires |f.name| >= 1 && LowerChar(f.name[|f.name| - 1]) != 'v'
    ensures Accept(f) == None
  {
  }

  /** The zone's state. */
  class UploadZone {
    var dragActive: bool
    /** The files handed to `onFileSelect`, oldest first. */
    var selected: seq<File>
    /** The alerts shown, oldest first. */
    var alerts: seq<string>

    constructor ()
      ensures !dragActive && selected == [] && alerts == []
    {
      dragActive, selected, alerts := false, [], [];
    }

    /** `handleDrag(e)` by event type. */
    method HandleDrag(eventType: string)
      modifies this
      ensures eventType == "dragenter" || eventType == "dragover" ==> dragActive
      ensures eventType == "dragleave" ==> !dragActive
      ensures eventType != "dragenter" && eventType != "dragover" && eventType != "dragleave"
        ==> dragActive == old(dragActive)
      ensures selected == old(selected) && alerts == old(alerts)
    {
      if eventType == "dragenter" || eventType == "dragover" {
        dragActive := true;
      } else if eventType == "dragleave" {
        dragActive := false;
      }
    }

    /** `handleFile(file)`: an accepted file is handed on unchanged, a refused one
      only raises the alert. */
    method HandleFile(f: File)
      modifies this
      ensures dragActive == old(dragActive)
      ensures IsCsvFile(f) ==> selected == old(selected) + [f] && alerts == old(alerts)
      ensures !IsCsvFile(f) ==> selected == old(selected) && alerts == old(alerts) + [REJECT_MESSAGE]
    {
      var isValidType := f.mimeType == "text/csv";
      var isValidExtension := EndsWith(ToLower(f.name), ".csv");
      if !isValidType && !isValidExtension {
        alerts := alerts + [REJECT_MESSAGE];
        return;
      }
      selected := selected + [f];
    }

    /** `handleDrop(e)`: the highlight goes off and only the first dropped file is
      looked at; an empty drop does nothing else. */
    method HandleDrop(files: seq<File>)
      modifies this
      ensures !dragActive
      ensures files == [] ==> selected == old(selected) && alerts == old(alerts)
      ensures files != [] && IsCsvFile(files[0]) ==> selected == old(selected) + [files[0]] && alerts == old(alerts)
      ensures files != [] && !IsCsvFile(files[0]) ==> selected == old(selected) && alerts == old(alerts) + [REJECT_MESSAGE]
    {
      dragActive := false;
      if |files| > 0 {
        HandleFile(files[0]);
      }
    }

    /** `handleFileInput(e)`: only the first chosen file is looked at. */
    method HandleFileInput(files: seq<File>)
      modifies this
      ensures dragActive == old(dragActive)
      ensures files == [] ==> selected == old(selected) && alerts == old(alerts)
      ensures files != [] && IsCsvFile(files[0]) ==> selected == old(selected) + [files[0]] && alerts == old(alerts)
      ensures files != [] && !IsCsvFile(files[0]) ==> selected == old(selected) && alerts == old(alerts) + [REJECT_MESSAGE]
    {
      if |files| > 0 {
        HandleFile(files[0]);
      }
    }
  }
}
