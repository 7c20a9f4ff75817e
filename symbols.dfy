/**
 * Debug-symbol configuration for one assembly path (AssemblyPostProcessor.cs,
 * lines 59-84). The mdb companion of "myDll.dll" is "myDll.dll.mdb", the pdb
 * companion is "myDll.pdb". A pdb wins over an mdb; symbols are always written
 * as mdb, since Mono cannot write pdbs. The reader and writer parameter objects
 * are shared by the whole batch and overwritten for each assembly.
 */
module Symbols {
  import opened Options

  datatype SymbolReaderProvider = PdbReaderProvider | MdbReaderProvider

  datatype SymbolWriterProvider = MdbWriterProvider

  /** The mdb companion: the assembly path with ".mdb" appended. */
  function MdbPath(assemblyPath: string): (r: string)
    ensures |r| == |assemblyPath| + 4 && r[..|assemblyPath|] == assemblyPath && r[|assemblyPath|..] == ".mdb"
  {
    assemblyPath + ".mdb"
  }

  /**
   * The pdb companion: the assembly path with its last three characters
   * replaced by "pdb". String.Substring throws when the path is shorter than
   * three characters, which is `None` here.
   */
  function PdbPath(assemblyPath: string): (r: Option<string>)
    ensures r.None? <==> |assemblyPath| < 3
    ensures r.Some? ==>
      && |r.value| == |assemblyPath|
      && r.value[..|assemblyPath| - 3] == assemblyPath[..|assemblyPath| - 3]
      && r.value[|assemblyPath| - 3..] == "pdb"
  {
    if |assemblyPath| < 3 then None else Some(assemblyPath[..|assemblyPath| - 3] + "pdb")
  }

  /** For "name.dll" the companions are "name.pdb" and "name.dll.mdb". */
  lemma CompanionPaths(stem: string)
    ensures PdbPath(stem + ".dll") == Some(stem + ".pdb")
    ensures MdbPath(stem + ".dll") == stem + ".dll.mdb"
  {
    var path := stem + ".dll";
    assert path[..|path| - 3] == stem + ".";
    assert stem + "." + "pdb" == stem + ".pdb";
    assert path + ".mdb" == stem + ".dll.mdb";
  }

  /** The four symbol fields the loop sets: ReadSymbols, SymbolReaderProvider, WriteSymbols, SymbolWriterProvider. */
  datatype SymbolSettings = SymbolSettings(
    readSymbols: bool,
    symbolReaderProvider: Option<SymbolReaderProvider>,
    writeSymbols: bool,
    symbolWriterProvider: Option<SymbolWriterProvider>)

  /**
   * The settings chosen from whether the pdb and the mdb companion exist:
   * symbols are read and written together, exactly when a companion exists; a
   * pdb takes precedence over an mdb; the writer is always mdb; a provider is
   * set exactly when its flag is.
   */
  function SymbolSettingsFor(pdbExists: bool, mdbExists: bool): (r: SymbolSettings)
    ensures r.readSymbols == r.writeSymbols == (pdbExists || mdbExists)
    ensures r.symbolReaderProvider.Some? <==> r.readSymbols
    ensures r.symbolWriterProvider.Some? <==> r.writeSymbols
    ensures pdbExists ==> r.symbolReaderProvider == Some(PdbReaderProvider)
    ensures !pdbExists && mdbExists ==> r.symbolReaderProvider == Some(MdbReaderProvider)
    ensures r.writeSymbols ==> r.symbolWriterProvider == Some(MdbWriterProvider)
  {
    if pdbExists then SymbolSettings(true, Some(PdbReaderProvider), true, Some(MdbWriterProvider))
    else if mdbExists then SymbolSettings(true, Some(MdbReaderProvider), true, Some(MdbWriterProvider))
    else SymbolSettings(false, None, false, None)
  }

  /** Mono.Cecil's ReaderParameters, as far as symbols go; its assembly resolver is not part of this model. */
  class ReaderParameters {
    var readSymbols: bool
    var symbolReaderProvider: Option<SymbolReaderProvider>

    constructor ()
      ensures !readSymbols && symbolReaderProvider.None?
    {
      readSymbols := false;
      symbolReaderProvider := None;
    }
  }

  /** Mono.Cecil's WriterParameters, as far as symbols go. */
  class WriterParameters {
    var writeSymbols: bool
    var symbolWriterProvider: Option<SymbolWriterProvider>

    constructor ()
      ensures !writeSymbols && symbolWriterProvider.None?
    {
      writeSymbols := false;
      symbolWriterProvider := None;
    }
  }

  /** The settings the shared parameter objects hold. */
  function SettingsOf(readerParameters: ReaderParameters, writerParameters: WriterParameters): SymbolSettings
    reads readerParameters, writerParameters
  {
    SymbolSettings(readerParameters.readSymbols, readerParameters.symbolReaderProvider,
                   writerParameters.writeSymbols, writerParameters.symbolWriterProvider)
  }

  /**
   * Lines 64-84: every branch sets all four fields, so what the objects hold
   * afterwards depends on the two flags only, never on the previous assembly.
   */
  method ConfigureSymbols(readerParameters: ReaderParameters, writerParameters: WriterParameters,
                          pdbExists: bool, mdbExists: bool)
    modifies readerParameters, writerParameters
    ensures SettingsOf(readerParameters, writerParameters) == SymbolSettingsFor(pdbExists, mdbExists)
  {
    if pdbExists {
      readerParameters.readSymbols := true;
      readerParameters.symbolReaderProvider := Some(PdbReaderProvider);
      writerParameters.writeSymbols := true;
      writerParameters.symbolWriterProvider := Some(MdbWriterProvider);
    } else if mdbExists {
      readerParameters.readSymbols := true;
      readerParameters.symbolReaderProvider := Some(MdbReaderProvider);
      writerParameters.writeSymbols := true;
      writerParameters.symbolWriterProvider := Some(MdbWriterProvider);
    } else {
      readerParameters.readSymbols := false;
      readerParameters.symbolReaderProvider := None;
      writerParameters.writeSymbols := false;
      writerParameters.symbolWriterProvider := None;
    }
  }
}
