/** The blob storage both server variants talk to, and the configuration
    that names its two containers. */
module Storage {
  import opened Base

  /** A blob is addressed by (container name, blob name). */
  type BlobKey = (string, string)

  /** The process configuration read from the environment: the storage
      account's name and the two container names (`AZURE_CONTAINER_ONE`,
      `AZURE_CONTAINER_TWO`). */
  datatype Config = Config(account: string, containerOne: string, containerTwo: string)

  /** The two spreadsheet names the service knows about. */
  const MilwaukeeFile: string := "Companies_in_Milwaukee.xlsx"
  const AffiliatedFile: string := "Affiliated_Program_Industry_Features.xlsx"

  /** `required_files`, in this order. */
  const RequiredFiles: seq<string> := [MilwaukeeFile, AffiliatedFile]

  /** The container a file name is stored in: the Milwaukee list goes to the
      first container, every other name to the second. */
  function ContainerFor(cfg: Config, name: string): string
  {
    if name == MilwaukeeFile then cfg.containerOne else cfg.containerTwo
  }

  /** The Milwaukee file is routed to the first configured container and the
      other accepted name to the second. */
  lemma RequiredFilesRouting(cfg: Config)
    ensures ContainerFor(cfg, MilwaukeeFile) == cfg.containerOne
    ensures ContainerFor(cfg, AffiliatedFile) == cfg.containerTwo
  {
  }

  /** The public URL of a stored blob. */
  function BlobUrl(account: string, container: string, name: string): string
  {
    "https://" + account + ".blob.core.windows.net/" + container + "/" + name
  }

  /** The blob store as a key-value byte store. `faults` lists the keys whose
      writes the service refuses, with the error it reports. */
  class BlobStore {
    const faults: map<BlobKey, string>
    var blobs: map<BlobKey, Bytes>

    constructor (faults: map<BlobKey, string>, blobs: map<BlobKey, Bytes>)
      ensures this.faults == faults && this.blobs == blobs
    {
      this.faults := faults;
      this.blobs := blobs;
    }

    /** `upload_blob(data, overwrite=True)`: stores or overwrites one blob, or
        fails and leaves the store as it was. */
    method Upload(key: BlobKey, data: Bytes) returns (error: Option<string>)
      modifies this
      ensures error == (if key in faults then Some(faults[key]) else None)
      ensures blobs == if key in faults then old(blobs) else old(blobs)[key := data]
    {
      if key in faults {
        error := Some(faults[key]);
      } else {
        blobs := blobs[key := data];
        error := None;
      }
    }
  }
}
