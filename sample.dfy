/** The hand-authored sample drive that backs the page, and scenarios over
    it: what the root and the nested folders list, and the trails that a
    few click sequences produce. */
module SampleDrive {
  import opened DriveItems
  import opened FolderListing
  import opened Navigation

  const File1: DriveItem := File("file1", "Project Proposal.docx", Document, "#", "245 KB", "Mar 12, 2025")
  const File2: DriveItem := File("file2", "Budget.xlsx", Spreadsheet, "#", "132 KB", "Mar 10, 2025")
  const File3: DriveItem := File("file3", "Presentation.pptx", Presentation, "#", "4.2 MB", "Mar 8, 2025")
  const File4: DriveItem := File("file4", "Meeting Notes.docx", Document, "#", "78 KB", "Mar 5, 2025")
  const File5: DriveItem := File("file5", "Contract.pdf", Pdf, "#", "1.2 MB", "Feb 28, 2025")
  const File6: DriveItem := File("file6", "Profile Picture.jpg", Image, "#", "1.8 MB", "Mar 1, 2025")
  const File7: DriveItem := File("file7", "Banner.png", Image, "#", "2.4 MB", "Feb 25, 2025")
  const File8: DriveItem := File("file8", "Report.pdf", Pdf, "#", "3.5 MB", "Mar 7, 2025")

  const RootFolder: DriveItem := Folder("root", "My Drive", ["folder1", "folder2", "file1", "file2", "file3"])
  const Folder1: DriveItem := Folder("folder1", "Documents", ["folder3", "file4", "file5"])
  const Folder2: DriveItem := Folder("folder2", "Images", ["file6", "file7"])
  const Folder3: DriveItem := Folder("folder3", "Work", ["file8"])

  /** The sample store, keyed by each item's identifier. */
  const MockData: Store := map[
    "root" := RootFolder,
    "folder1" := Folder1,
    "folder2" := Folder2,
    "folder3" := Folder3,
    "file1" := File1,
    "file2" := File2,
    "file3" := File3,
    "file4" := File4,
    "file5" := File5,
    "file6" := File6,
    "file7" := File7,
    "file8" := File8
  ]

  /** Helper for the scenarios: each sample identifier indexes its own item.
      Stating the lookups once keeps the listing proofs below cheap. */
  lemma MockEntries()
    ensures MockData["root"] == RootFolder && MockData["folder1"] == Folder1
    ensures MockData["folder2"] == Folder2 && MockData["folder3"] == Folder3
    ensures MockData["file1"] == File1 && MockData["file2"] == File2
    ensures MockData["file3"] == File3 && MockData["file4"] == File4
    ensures MockData["file5"] == File5 && MockData["file6"] == File6
    ensures MockData["file7"] == File7 && MockData["file8"] == File8
  {
  }

  /** The root lists its five children, folders first, in stored order. */
  lemma RootListing()
    ensures FolderContents(MockData, "root") == [Folder1, Folder2, File1, File2, File3]
  {
    MockEntries();
    FolderContentsAllResolve(MockData, "root");
  }

  /** The nested "Work" folder lists the one report. */
  lemma Folder3Listing()
    ensures FolderContents(MockData, "folder3") == [File8]
    ensures File8.name == "Report.pdf" && File8.kind == Pdf && File8.size == "3.5 MB"
  {
    MockEntries();
    FolderContentsAllResolve(MockData, "folder3");
  }

  /** A file identifier and an unknown identifier both list nothing. */
  lemma NonFolderListings()
    ensures FolderContents(MockData, "file8") == []
    ensures FolderContents(MockData, "folder9") == []
  {
  }

  /** Opening "Documents" and then "Work" from the start pushes both. */
  method DescendScenario() returns (current: string, trail: seq<Crumb>)
    ensures current == "folder3"
    ensures trail == [RootCrumb, Crumb("folder1", "Documents"), Crumb("folder3", "Work")]
  {
    var nav := new NavigationState();
    nav.Navigate("folder1", "Documents");
    assert "folder1" != RootCrumb.id;
    nav.Navigate("folder3", "Work");
    assert "folder3" != "folder1";
    current, trail := nav.currentFolder, nav.breadcrumbs;
  }

  /** Two pushes followed by a click on the root crumb cut the trail back
      to the root entry alone. */
  method CompactionScenario() returns (current: string, trail: seq<Crumb>)
    ensures current == RootId
    ensures trail == [RootCrumb]
  {
    var nav := new NavigationState();
    nav.Navigate("folder1", "Documents");
    assert "folder1" != RootCrumb.id;
    nav.Navigate("folder2", "Images");
    assert "folder2" != "folder1";
    nav.Navigate(RootId, "My Drive");
    current, trail := nav.currentFolder, nav.breadcrumbs;
  }

  /** Clicking the open folder again leaves the trail as it was. */
  method RepeatScenario() returns (current: string, trail: seq<Crumb>)
    ensures current == "folder1"
    ensures trail == [RootCrumb, Crumb("folder1", "Documents")]
  {
    var nav := new NavigationState();
    nav.Navigate("folder1", "Documents");
    assert "folder1" != RootCrumb.id;
    nav.Navigate("folder1", "Renamed");
    current, trail := nav.currentFolder, nav.breadcrumbs;
  }
}
