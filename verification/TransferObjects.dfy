/**
 The transfer manager and its transfers as objects over a shared file system; the downloads
 directory is modelled by the prefix that its paths carry.
 */
module TransferObjects {
  import opened Options
  import opened TransferModel

  /** The files by path. A path in `blocked` can be neither opened nor created. */
  class FileSystem {
    var files: map<string, Bytes>
    var blocked: set<string>

    constructor ()
      ensures files == map[] && blocked == {}
    {
      files, blocked := map[], {};
    }

    function File(path: string): Option<Bytes>
      reads this
    {
      if path in files then Some(files[path]) else None
    }

    predicate CanOpen(path: string)
      reads this
    {
      path !in blocked
    }
  }

  class FileTransfer {
    const id: string
    const path: string
    const size: int
    const chunkSize: int
    const totalChunks: int
    var state: TransferState
    var receivedChunks: int
    var bytesSent: int

    constructor (id: string, path: string, size: int, chunkSize: int, state: TransferState)
      requires chunkSize != 0
      ensures this.id == id && this.path == path
      ensures Contents() == Transfer(state, size, chunkSize, TotalChunks(size, chunkSize), 0, 0)
    {
      this.id, this.path, this.size, this.chunkSize := id, path, size, chunkSize;
      totalChunks := TotalChunks(size, chunkSize);
      this.state, receivedChunks, bytesSent := state, 0, 0;
    }

    function Contents(): Transfer
      reads this
    {
      Transfer(state, size, chunkSize, totalChunks, receivedChunks, bytesSent)
    }

    method WriteChunk(h: Hash, fs: FileSystem, index: int, data: Bytes, sum: string) returns (ok: bool)
      modifies this, fs
      ensures (Contents(), fs.File(path), ok)
              == TransferModel.WriteChunk(h, old(Contents()), old(fs.File(path)), index, data, sum,
                  old(fs.CanOpen(path)))
      ensures fs.blocked == old(fs.blocked)
      ensures fs.files - {path} == old(fs.files) - {path}
    {
      if state != Active {
        return false;
      }
      if sum != "" {
        var actual := h(data);
        if actual != sum {
          return false;
        }
      }
      if path in fs.blocked {
        return false;
      }
      if path !in fs.files {
        fs.files := fs.files[path := []];
      }
      var offset := index * chunkSize;
      if offset < 0 {
        return false;
      }
      fs.files := fs.files[path := WriteAt(fs.files[path], offset, data)];
      receivedChunks := receivedChunks + 1;
      bytesSent := bytesSent + |data|;
      return true;
    }

    method ReadChunk(h: Hash, fs: FileSystem, index: int) returns (r: Option<(Bytes, string)>)
      requires chunkSize >= 0
      ensures r == TransferModel.ReadChunk(h, Contents(), if fs.CanOpen(path) then fs.File(path) else None, index)
    {
      if state == Cancelled {
        return None;
      }
      if path in fs.blocked || path !in fs.files {
        return None;
      }
      var position := 0;
      var offset := index * chunkSize;
      if offset >= 0 {
        position := offset;
      }
      var data := ReadAt(fs.files[path], position, chunkSize);
      return Some((data, h(data)));
    }

    method MarkComplete()
      modifies this
      ensures Contents() == old(Contents()).(state := Complete)
    {
      state := Complete;
    }

    method MarkCancelled()
      modifies this
      ensures Contents() == old(Contents()).(state := Cancelled)
    {
      state := Cancelled;
    }

    method Progress() returns (p: real)
      ensures p == TransferModel.Progress(Contents())
      ensures receivedChunks == totalChunks != 0 ==> p == 1.0
      ensures 0 <= receivedChunks <= totalChunks ==> 0.0 <= p <= 1.0
    {
      if totalChunks == 0 {
        return 0.0;
      }
      return receivedChunks as real / totalChunks as real;
    }
  }

  class Manager {
    const downloads: string
    var transfers: map<string, FileTransfer>

    constructor (downloads: string)
      ensures this.downloads == downloads && transfers == map[]
    {
      this.downloads, transfers := downloads, map[];
    }

    /** `size` is what asking for the file's status reports, None when that fails. */
    method InitiateSend(id: string, path: string, size: Option<nat>) returns (r: Option<FileTransfer>)
      modifies this
      ensures r.Some? <==> size.Some?
      ensures r.None? ==> transfers == old(transfers)
      ensures r.Some? ==>
                && fresh(r.value) && r.value.id == id && r.value.path == path
                && transfers == old(transfers)[id := r.value]
                && r.value.Contents()
                   == Transfer(Pending, size.value, 65536, TotalChunks(size.value, 65536), 0, 0)
    {
      if size.None? {
        return None;
      }
      var t := new FileTransfer(id, path, size.value, DEFAULT_CHUNK_SIZE, Pending);
      transfers := transfers[id := t];
      return Some(t);
    }

    /** `ready` says whether the downloads directory could be made. */
    method InitiateReceive(id: string, name: string, size: int, chunkSize: int, ready: bool)
      returns (r: Option<FileTransfer>)
      requires chunkSize != 0
      modifies this
      ensures r.Some? <==> ready
      ensures r.None? ==> transfers == old(transfers)
      ensures r.Some? ==>
                && fresh(r.value) && r.value.id == id && r.value.path == downloads + name
                && transfers == old(transfers)[id := r.value]
                && r.value.Contents() == Transfer(Active, size, chunkSize, TotalChunks(size, chunkSize), 0, 0)
    {
      if !ready {
        return None;
      }
      var t := new FileTransfer(id, downloads + name, size, chunkSize, Active);
      transfers := transfers[id := t];
      return Some(t);
    }
  }
}
