/** The released files: the gzipped tarball, its name and its digest sidecar. */
module ReleaseArtifact {
  import opened Options
  import opened Ustar
  import opened Gzip
  import opened ReleaseLayout
  import opened ReleaseTarball
  import opened ReleaseTheorems

  const MAX_COMPRESSED: nat := 67108864
  const MAX_SIDECAR: nat := 4096

  datatype Artifact = Artifact(name: string, blob: Bytes, sidecar: Bytes)

  function SidecarFor(t: Tools, name: string, blob: Bytes): Bytes { t.sha(blob) + "  " + name + "\n" }

  /** What is to be packed. */
  datatype Inputs = Inputs(version: string, arch: string, source: Source, meta: Meta, files: Contents)

  ghost function TarOf(t: Tools, p: Inputs): Option<Bytes> { Pack(t, p.version, p.arch, p.source, p.meta, p.files) }

  /** `cmd_pack`. */
  ghost function PackArtifact(t: Tools, c: Codec, p: Inputs): Option<Artifact> {
    var raw := TarOf(t, p);
    if raw.None? then None
    else
      var blob := Zip(c, raw.value);
      var name := TopDir(p.version, p.arch) + SUFFIX;
      if |blob| > MAX_COMPRESSED then None else Some(Artifact(name, blob, SidecarFor(t, name, blob)))
  }

  /** `verify_tarball`, with `--expect-sha256` and `--expect-version` where given. */
  ghost predicate Verify(t: Tools, c: Codec, name: string, blob: Bytes, sidecar: Option<Bytes>, digest: Option<string>,
                         expected: Option<string>)
  {
    && |blob| <= MAX_COMPRESSED && (digest.Some? ==> t.sha(blob) == digest.value)
    && var parsed := ParseTarballName(name);
       && parsed.Some? && (expected.Some? ==> parsed.value.0 == expected.value)
       && sidecar.Some? && |sidecar.value| <= MAX_SIDECAR && sidecar.value == SidecarFor(t, name, blob)
       && var raw := Unzip(c, blob);
          raw.Some? && Accepts(t, raw.value, parsed.value.0, parsed.value.1)
  }

  /** The parameters are what they stand for: codecs and a reader that round-trip, a 64-digit digest. */
  ghost predicate Sound(t: Tools, c: Codec) {
    && CodecRoundTrips(t) && ReadsUstar(t) && SelfDelimiting(c) && CrcIs32Bit(c) && Streams(c)
    && forall data :: |t.sha(data)| == 64
  }

  /** A name that fits ustar is short. */
  lemma EncodableIsShort(e: Entry, mtime: nat)
    requires Encodable(e, mtime)
    ensures |e.name| <= 256
  {
    SplitFits(WrittenName(e));
  }

  lemma PackedTopIsShort(t: Tools, p: Inputs)
    requires TarOf(t, p).Some?
    ensures |TopDir(p.version, p.arch)| <= 256
  {
    hide Encodable, StageOk, IsVersion, Packed, Stream, TopDir;
    var top := TopDir(p.version, p.arch);
    var c := Packed(t, p.version, p.arch, p.source, p.meta, p.files);
    var i := IndexOfName(top, c, top);
    var es := TarEntries(top, c);
    assert Encodable(es[i], p.source.epoch);
    EncodableIsShort(es[i], p.source.epoch);
  }

  /**
    Everything `pack` writes passes `verify`, under the version and the digest it was written with:
    exactly when the binary lacks the web-UI marker and the tar stream fits the cap.
   */
  lemma PackedArtifactVerifies(t: Tools, c: Codec, p: Inputs)
    requires Sound(t, c) && PackArtifact(t, c, p).Some?
    ensures var a := PackArtifact(t, c, p).value;
      Verify(t, c, a.name, a.blob, Some(a.sidecar), Some(t.sha(a.blob)), Some(p.version)) <==>
      |TarOf(t, p).value| <= MAX_UNCOMPRESSED && BIN_PATH in p.files && !Contains(p.files[BIN_PATH], WEB_UI_MARKER)
  {
    hide Accepts, IsVersion, IsArch, Contains, ParseTarballName, Zip, Unzip, StageOk, TarBytes, CodecRoundTrips,
         ReadsUstar, SelfDelimiting, CrcIs32Bit, Streams, SourceOk;
    var raw := TarOf(t, p).value;
    var a := PackArtifact(t, c, p).value;
    TarballNameRoundTrip(p.version, p.arch);
    UnzipUndoesZip(c, raw);
    PackedTopIsShort(t, p);
    assert |a.sidecar| <= MAX_SIDECAR;
    if BIN_PATH in p.files && !Contains(p.files[BIN_PATH], WEB_UI_MARKER) {
      VerifyAcceptsPacked(t, p.version, p.arch, p.source, p.meta, p.files, raw);
    }
    if Accepts(t, raw, p.version, p.arch) {
      var source, meta, files := AcceptedIsPacked(t, raw, p.version, p.arch);
      PackedFilesAreUnique(t, p.version, p.arch, p.source, p.meta, p.files, raw);
      PackedFilesAreUnique(t, p.version, p.arch, source, meta, files, raw);
    }
  }

  /** Inputs that pack to what a verified artifact holds. */
  ghost predicate Holds(t: Tools, c: Codec, p: Inputs, name: string, blob: Bytes) {
    && name == TopDir(p.version, p.arch) + SUFFIX && TarOf(t, p).Some? && Unzip(c, blob) == TarOf(t, p)
    && BIN_PATH in p.files && !Contains(p.files[BIN_PATH], WEB_UI_MARKER)
  }

  /**
    What passes `verify`: exactly the artifacts with a matching sidecar, within the caps, that hold
    what `pack` writes for the version and architecture their name spells out.
   */
  lemma VerifiedIsPacked(t: Tools, c: Codec, name: string, blob: Bytes, sidecar: Bytes)
    requires Sound(t, c)
    ensures Verify(t, c, name, blob, Some(sidecar), None, None) <==>
      && |blob| <= MAX_COMPRESSED && |sidecar| <= MAX_SIDECAR && sidecar == SidecarFor(t, name, blob)
      && exists p :: Holds(t, c, p, name, blob)
  {
    hide Accepts, IsVersion, IsArch, Contains, ParseTarballName, Unzip, StageOk, TarBytes, CodecRoundTrips,
         ReadsUstar, SelfDelimiting, CrcIs32Bit, Streams, SourceOk;
    if Verify(t, c, name, blob, Some(sidecar), None, None) {
      ParsedNameIsCanonical(name);
      var (version, arch) := ParseTarballName(name).value;
      ParsedParts(name);
      var raw := Unzip(c, blob).value;
      var source, meta, files := AcceptedIsPacked(t, raw, version, arch);
      assert Holds(t, c, Inputs(version, arch, source, meta, files), name, blob);
    }
    if p :| Holds(t, c, p, name, blob) {
      TarballNameRoundTrip(p.version, p.arch);
      VerifyAcceptsPacked(t, p.version, p.arch, p.source, p.meta, p.files, Unzip(c, blob).value);
    }
  }

  lemma ParsedParts(file: string)
    requires ParseTarballName(file).Some?
    ensures IsVersion(ParseTarballName(file).value.0) && IsArch(ParseTarballName(file).value.1)
  {}

  /** Data appended to a verified tarball is refused, under any sidecar. */
  lemma AppendedDataIsRefused(t: Tools, c: Codec, name: string, blob: Bytes, sidecar: Option<Bytes>,
                              digest: Option<string>,
                              expected: Option<string>, tail: Bytes, name': string, sidecar': Option<Bytes>,
                              digest': Option<string>, expected': Option<string>)
    requires Sound(t, c) && Verify(t, c, name, blob, sidecar, digest, expected) && tail != []
    ensures !Verify(t, c, name', blob + tail, sidecar', digest', expected')
  {
    hide Accepts, ParseTarballName, Unzip, CodecRoundTrips, ReadsUstar, SelfDelimiting, CrcIs32Bit, Streams;
    NothingMayFollow(c, blob, tail);
  }
}
