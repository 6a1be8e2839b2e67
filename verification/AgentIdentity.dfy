/**
 What an agent knows about its own identity: the credential and bootstrap token in
 memory, and what survives a restart in the credential file and the config file.
 Enrollment tokens are not part of this model.
 */
module AgentIdentity {
  import opened Text

  datatype CredentialFile = CredentialFile(credential: string, finalized: bool)

  /** `configToken` is the token in the config file, `flagToken` one given on the command line. */
  datatype Disk = Disk(file: Option<CredentialFile>, configToken: bool, flagToken: bool)

  datatype Memory = Memory(credential: Option<string>, finalized: bool, hasToken: bool, preferRegistration: bool)

  datatype Presented = ByCredential(credential: string) | ByToken

  /** What a fresh process remembers. The credential file is only read when its path is configured. */
  function Boot(disk: Disk, readsFile: bool): Memory {
    var hasToken := disk.configToken || disk.flagToken;
    if readsFile && disk.file.Some?
    then Memory(Some(disk.file.value.credential), disk.file.value.finalized, hasToken,
                disk.flagToken || (!disk.file.value.finalized && hasToken))
    else Memory(None, false, hasToken, disk.flagToken)
  }

  /** The secret tried first: a finalized credential wins over the token, an unfinalized one may not. */
  function Primary(m: Memory): Option<Presented> {
    if m.credential.Some? && (m.finalized || !m.preferRegistration || !m.hasToken)
    then Some(ByCredential(m.credential.value))
    else if m.hasToken then Some(ByToken)
    else None
  }

  /** The secret tried after a 401. */
  function Fallback(m: Memory, tried: Presented): Option<Presented> {
    match tried
    case ByToken => if m.credential.Some? then Some(ByCredential(m.credential.value)) else None
    case ByCredential(_) => if m.hasToken then Some(ByToken) else None
  }

  predicate CanPresent(m: Memory, x: Presented) {
    Primary(m) == Some(x) || (Primary(m).Some? && Fallback(m, Primary(m).value) == Some(x))
  }

  /** A restart never makes the agent present a credential other than the stored one. */
  lemma BootPresentsStored(disk: Disk, readsFile: bool, x: Presented)
    requires CanPresent(Boot(disk, readsFile), x) && x.ByCredential?
    ensures disk.file.Some? && x.credential == disk.file.value.credential
  {}

  /** How far the agent gets through writing a credential before it fails or is killed. */
  datatype Progress = NotStored | StoredOnly | Completed

  class NodeRuntime {
    var memory: Memory
    var disk: Disk

    constructor (disk: Disk, readsFile: bool)
      ensures this.disk == disk && memory == Boot(disk, readsFile)
    {
      this.disk := disk;
      memory := Boot(disk, readsFile);
    }

    /** registration_success: store first, then adopt; the acknowledgement follows completion. */
    method HandleRegistrationSuccess(credential: string, progress: Progress) returns (ack: bool)
      modifies this
      ensures disk == if progress == NotStored then old(disk) else old(disk).(file := Some(CredentialFile(credential, false)))
      ensures memory == if progress == Completed
                        then old(memory).(credential := Some(credential), finalized := false) else old(memory)
      ensures ack == (progress == Completed)
    {
      if progress == NotStored { return false; }
      disk := disk.(file := Some(CredentialFile(credential, false)));
      if progress == StoredOnly { return false; }
      memory := memory.(credential := Some(credential), finalized := false);
      return true;
    }

    method FinalizeCredential(progress: Progress)
      modifies this
      ensures (memory, disk) == Finalized(old(memory), old(disk), progress)
    {
      if memory.credential.None? || progress == NotStored { return; }
      disk := disk.(file := Some(CredentialFile(memory.credential.value, true)));
      if progress == StoredOnly { return; }
      disk := disk.(configToken := false);
      memory := memory.(finalized := true, hasToken := false, preferRegistration := false);
    }
  }

  /** Finalizing marks the credential in memory as stored and scrubs the bootstrap token. */
  function Finalized(memory: Memory, disk: Disk, progress: Progress): (Memory, Disk) {
    if memory.credential.None? || progress == NotStored then (memory, disk)
    else
      var stored := disk.(file := Some(CredentialFile(memory.credential.value, true)));
      if progress == StoredOnly then (memory, stored)
      else (memory.(finalized := true, hasToken := false, preferRegistration := false), stored.(configToken := false))
  }
}
