/** An abstract local filesystem: which files exist and what they hold.
    Permissions, directories and partial writes are not modelled; a path in
    `faulty` stands for any file on which the operating system refuses a write
    or a delete. */
module Files {
  import opened Common

  class FileSystem {
    var files: map<Path, seq<byte>>
    var faulty: set<Path>

    constructor (files: map<Path, seq<byte>>, faulty: set<Path>)
      ensures this.files == files && this.faulty == faulty
    {
      this.files := files;
      this.faulty := faulty;
    }

    /** `new FileOutputStream(path)` followed by `write(content)`: the file is
        created or replaced as a whole, or the write throws and nothing changes.
        The exception's message is taken to be the path. */
    method Write(path: Path, content: seq<byte>) returns (r: Result<(), Exception>)
      modifies this`files
      ensures path in faulty ==> r == Failure(IOException(path)) && files == old(files)
      ensures path !in faulty ==> r == Success(()) && files == old(files)[path := content]
    {
      if path in faulty {
        r := Failure(IOException(path));
      } else {
        files := files[path := content];
        r := Success(());
      }
    }

    /** `Files.delete(path)`: throws `NoSuchFileException` (an `IOException`
        whose message is the path) when the file is absent, and an
        `IOException` when the system refuses; otherwise the file is gone. */
    method Delete(path: Path) returns (r: Result<(), Exception>)
      modifies this`files
      ensures path !in old(files) || path in faulty ==> r == Failure(IOException(path)) && files == old(files)
      ensures path in old(files) && path !in faulty ==> r == Success(()) && files == old(files) - {path}
    {
      if path !in files || path in faulty {
        r := Failure(IOException(path));
      } else {
        files := files - {path};
        r := Success(());
      }
    }
  }
}
