/** What DataProcedure and KerasTrial share through `Storable`: the cached
    hash, the blob path computed from a fresh hash, and removal of the blob
    directory together with its fan-out directory once that is empty. */
module Storable {
  import opened Results
  import opened Json
  import opened Files
  import opened BlobPaths
  import opened Ledger

  /** `Storable.hash()`: the cached hash if there is one, otherwise the hash of
      the current document, which then becomes the cache. Returns the hash
      and the new cache. */
  function Hash(cache: Option<Digest>, doc: Json, sha: Hasher): (r: (Digest, Option<Digest>))
    ensures r.1 == Some(r.0)
    ensures cache.Some? ==> r == (cache.value, cache)
    ensures cache.None? ==> r.0 == sha(doc)
  {
    match cache
    case Some(h) => (h, cache)
    case None => (sha(doc), Some(sha(doc)))
  }

  /** Asking twice gives the same hash and leaves the cache as it was after
      the first call, whatever the document has become in between. */
  lemma HashIsStable(cache: Option<Digest>, doc1: Json, doc2: Json, sha: Hasher)
    ensures Hash(Hash(cache, doc1, sha).1, doc2, sha) == Hash(cache, doc1, sha)
  {
  }

  /** `Storable.get_path()`: always from a freshly computed hash, through
      `get_blob_path(hashcode=..., archive_dir=...)`. */
  function GetPath(archiveDir: string, doc: Json, sha: Hasher): (r: string)
    ensures GetBlobPath(BlobQuery([], Some(archiveDir), None, Some(sha(doc))), sha) == Ok(r)
  {
    Layout(archiveDir, sha(doc))
  }

  /** `get_path()` and the cached hash name the same blob exactly when the
      cache, if any, is the hash of the current document. */
  lemma GetPathMatchesCache(archiveDir: string, cache: Option<Digest>, doc: Json, sha: Hasher)
    ensures GetPath(archiveDir, doc, sha) == Layout(archiveDir, Hash(cache, doc, sha).0)
            <==> cache.None? || cache.value == sha(doc)
  {
    var h := Hash(cache, doc, sha).0;
    if GetPath(archiveDir, doc, sha) == Layout(archiveDir, h) {
      BlobDirsDisjoint(archiveDir, sha(doc), h);
    }
  }

  /** The body of `Storable.remove_from_archive`: remove `folder` if it is a
      directory, then remove `parent` if it is a directory left empty. */
  function RemoveBlob(fs: FileSystem, folder: string, parent: string): (r: FileSystem)
    ensures folder in fs.dirs ==> forall p :: Below(folder, p) ==> !Exists(r, p)
    ensures forall p :: p in r.files <==> p in fs.files && !(folder in fs.dirs && Below(folder, p))
    ensures forall p :: p in r.files ==> r.files[p] == fs.files[p]
    ensures parent in r.dirs ==> !IsEmptyDir(r, parent)
    ensures forall p :: !Below(folder, p) && !Below(parent, p) ==> (p in r.dirs <==> p in fs.dirs)
    ensures r.dirs <= fs.dirs
  {
    var fs1 := if folder in fs.dirs then RemoveTree(fs, folder) else fs;
    if parent in fs1.dirs && IsEmptyDir(fs1, parent) then RemoveTree(fs1, parent) else fs1
  }

  /** The fan-out directory disappears exactly when it is a directory that
      nothing but the removed blob kept non-empty. */
  lemma RemoveBlobParent(fs: FileSystem, folder: string, parent: string)
    ensures var fs1 := if folder in fs.dirs then RemoveTree(fs, folder) else fs;
            parent !in RemoveBlob(fs, folder, parent).dirs
            <==> parent !in fs1.dirs || IsEmptyDir(fs1, parent)
  {
  }

  /** Removing the blob of a well-formed archive keeps it well-formed. */
  lemma RemoveBlobWellFormed(fs: FileSystem, folder: string, parent: string)
    requires WellFormed(fs)
    requires |folder| > 0 && folder[|folder| - 1] == '/'
    requires |parent| > 0 && parent[|parent| - 1] == '/'
    ensures WellFormed(RemoveBlob(fs, folder, parent))
  {
    var fs1 := if folder in fs.dirs then RemoveTree(fs, folder) else fs;
    RemoveTreeWellFormed(fs, folder);
    RemoveTreeWellFormed(fs1, parent);
  }

  /** `shutil.rmtree` of a directory keeps the filesystem well-formed: what
      stays was not inside the removed directory, so neither are its
      ancestors. */
  lemma RemoveTreeWellFormed(fs: FileSystem, d: string)
    requires WellFormed(fs)
    requires |d| > 0 && d[|d| - 1] == '/'
    ensures WellFormed(RemoveTree(fs, d))
  {
    var r := RemoveTree(fs, d);
    forall p, a | (p in r.files || p in r.dirs) && a in Ancestors(p)
      ensures a in r.dirs
    {
      var i :| 0 < i < |p| && p[i - 1] == '/' && a == p[..i];
    }
  }

  /** The `remove_from_archive` of DataProcedure and KerasTrial: drop the
      cached hash from the ledger `recordFile`, then run the body of
      `Storable.remove_from_archive` on the blob of a fresh `get_path()` and
      the fan-out directory of the cached hash. Returns the new cache too. */
  function RemoveFromArchive(fs: FileSystem, archiveDir: string, recordFile: string,
                             cache: Option<Digest>, doc: Json, sha: Hasher)
    : (r: Result<(FileSystem, Option<Digest>)>)
    ensures r.Ok? <==> ReadRecord(fs, archiveDir, recordFile).Ok?
    ensures r.Ok? ==> r.value.1 == Hash(cache, doc, sha).1
  {
    var record :- ReadRecord(fs, archiveDir, recordFile);
    var (h, cache1) := Hash(cache, doc, sha);
    var fs1 := WriteRecord(fs, record - {h}, archiveDir, recordFile);
    Ok((RemoveBlob(fs1, GetPath(archiveDir, doc, sha), BlobParent(archiveDir, h)), cache1))
  }

  /** With a cache that matches the document, removal leaves nothing inside
      the blob directory, removes exactly this hash from the ledger, keeps
      every other file, and keeps the filesystem well-formed. */
  lemma RemoveForgets(fs: FileSystem, archiveDir: string, recordFile: string,
                      cache: Option<Digest>, doc: Json, sha: Hasher)
    requires WellFormed(fs)
    requires cache.None? || cache.value == sha(doc)
    requires |recordFile| > 0 && recordFile[0] != 'b'
    requires ReadRecord(fs, archiveDir, recordFile).Ok?
    ensures var r := RemoveFromArchive(fs, archiveDir, recordFile, cache, doc, sha);
            var blob := GetPath(archiveDir, doc, sha);
            var ledger := archiveDir + recordFile;
            && r.Ok?
            && (forall q :: Below(blob, q) && q != blob ==> !Exists(r.value.0, q))
            && ReadRecord(r.value.0, archiveDir, recordFile)
               == Ok(ReadRecord(fs, archiveDir, recordFile).value - {sha(doc)})
            && (forall q :: q in fs.files && q != ledger && !Below(blob, q) ==>
                  q in r.value.0.files && r.value.0.files[q] == fs.files[q])
            && WellFormed(r.value.0)
  {
    var record := ReadRecord(fs, archiveDir, recordFile).value;
    var h := sha(doc);
    var blob := GetPath(archiveDir, doc, sha);
    var parent := BlobParent(archiveDir, h);
    var ledger := archiveDir + recordFile;
    var fs1 := WriteRecord(fs, record - {h}, archiveDir, recordFile);
    WriteFilePreservesWellFormed(fs, ledger, Doc(RecordJson(record - {h})));
    RecordRoundTrip(fs, record - {h}, archiveDir, recordFile);
    RecordOutsideBlobs(archiveDir, h, recordFile);
    LayoutShape(archiveDir, h);
    var fs' := RemoveBlob(fs1, blob, parent);
    RemoveBlobWellFormed(fs1, blob, parent);
    forall q | Below(blob, q) && q != blob
      ensures !Exists(fs', q)
    {
      if Exists(fs1, q) {
        AncestorOfInside(blob, q);
      }
    }
    assert ReadRecord(fs', archiveDir, recordFile) == ReadRecord(fs1, archiveDir, recordFile);
  }
}
