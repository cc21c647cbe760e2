/**
 * Linking of library addresses into contract bytecode: each link reference names
 * a byte range of the bytecode (a "0x"-prefixed hex string) that is overwritten by
 * the hex digits of the library's address.
 */
module LinkLibraries {
  import opened Wrappers

  /** A placeholder of `length` bytes starting at byte `start` of the bytecode. */
  datatype LinkReference = LinkReference(start: nat, length: nat)

  /** The references of one contract (library) name, in array order. */
  datatype ContractReferences = ContractReferences(contractName: string, references: seq<LinkReference>)

  /** The contracts referenced from one source file, in key order. */
  datatype FileReferences = FileReferences(fileName: string, contracts: seq<ContractReferences>)

  datatype LinkError = MissingLinkLibrary(contractName: string)

  predicate IsLowerHexDigit(c: char)
  {
    '0' <= c <= '9' || 'a' <= c <= 'f'
  }

  /** 40 lowercase hex digits: a library address lowercased and without its "0x". */
  type HexAddress = s: string | |s| == 40 && forall i :: 0 <= i < |s| ==> IsLowerHexDigit(s[i])
    witness "0000000000000000000000000000000000000000"

  function Min(a: int, b: int): int
  {
    if a <= b then a else b
  }

  /** String.prototype.slice(from, to) for non-negative arguments: both are clamped to the length. */
  function Slice(s: string, from: nat, to: nat): (r: string)
    ensures from <= to <= |s| ==> r == s[from..to]
    ensures |s| <= from ==> r == []
  {
    var f, t := Min(from, |s|), Min(to, |s|);
    if f < t then s[f..t] else []
  }

  /** The hex-character offset of a reference: the "0x" prefix, then two characters per byte. */
  function CharStart(ref: LinkReference): nat
  {
    2 + 2 * ref.start
  }

  function CharEnd(ref: LinkReference): nat
  {
    CharStart(ref) + 2 * ref.length
  }

  /**
   * One splice: the characters of the reference's range are replaced by the address.
   * Within bounds everything before and after the range is kept; a range past the
   * end appends the address.
   */
  function Splice(code: string, ref: LinkReference, address: HexAddress): (r: string)
    ensures CharEnd(ref) <= |code| ==>
      && |r| == |code| - 2 * ref.length + 40
      && r[..CharStart(ref)] == code[..CharStart(ref)]
      && r[CharStart(ref)..CharStart(ref) + 40] == address
      && r[CharStart(ref) + 40..] == code[CharEnd(ref)..]
    ensures CharEnd(ref) <= |code| && ref.length == 20 ==> |r| == |code|
    ensures CharStart(ref) < |code| < CharEnd(ref) ==> r == code[..CharStart(ref)] + address
    ensures |code| <= CharStart(ref) ==> r == code + address
  {
    Slice(code, 0, CharStart(ref)) + address + Slice(code, CharEnd(ref), |code|)
  }

  /** Every reference is a 20-byte slot ending within n characters. */
  predicate AddressSlotsWithin(refs: seq<LinkReference>, n: nat)
  {
    forall k :: 0 <= k < |refs| ==> refs[k].length == 20 && CharEnd(refs[k]) <= n
  }

  /** The references applied one after the other, each to the string the previous one left. */
  function ApplyReferences(code: string, refs: seq<LinkReference>, address: HexAddress): (r: string)
    ensures refs == [] ==> r == code
    ensures AddressSlotsWithin(refs, |code|) ==> |r| == |code|
    decreases |refs|
  {
    if refs == [] then code
    else Splice(ApplyReferences(code, refs[..|refs| - 1], address), refs[|refs| - 1], address)
  }

  /**
   * The contracts of a file in order; the first contract whose name has no library
   * throws, and whatever was spliced before it is lost.
   */
  function ApplyContracts(code: string, contracts: seq<ContractReferences>, libraries: map<string, HexAddress>)
    : (r: Result<string, LinkError>)
    ensures r.Failure? ==> r.error.contractName !in libraries
    decreases |contracts|
  {
    if contracts == [] then Success(code)
    else
      var last := contracts[|contracts| - 1];
      match ApplyContracts(code, contracts[..|contracts| - 1], libraries)
      case Failure(e) => Failure(e)
      case Success(c) =>
        if last.contractName in libraries
        then Success(ApplyReferences(c, last.references, libraries[last.contractName]))
        else Failure(MissingLinkLibrary(last.contractName))
  }

  /** The files in order, each applying its contracts to the bytecode the previous files left. */
  function ApplyFiles(code: string, files: seq<FileReferences>, libraries: map<string, HexAddress>)
    : (r: Result<string, LinkError>)
    ensures r.Failure? ==> r.error.contractName !in libraries
    decreases |files|
  {
    if files == [] then Success(code)
    else
      match ApplyFiles(code, files[..|files| - 1], libraries)
      case Failure(e) => Failure(e)
      case Success(c) => ApplyContracts(c, files[|files| - 1].contracts, libraries)
  }

  /** Every contract name of one file has a library. */
  ghost predicate ContractsCovered(contracts: seq<ContractReferences>, libraries: map<string, HexAddress>)
  {
    forall j :: 0 <= j < |contracts| ==> contracts[j].contractName in libraries
  }

  /** Every contract name referenced from any file has a library. */
  ghost predicate LibrariesCover(files: seq<FileReferences>, libraries: map<string, HexAddress>)
  {
    forall i, j :: 0 <= i < |files| && 0 <= j < |files[i].contracts| ==>
      files[i].contracts[j].contractName in libraries
  }

  /**
   * Replaces every referenced byte range of `bytecode` with the address of the
   * library its contract name maps to, visiting files, contract names and
   * references in order; throws for the first contract name without a library.
   */
  method Link(bytecode: string, linkReferences: seq<FileReferences>, libraries: map<string, HexAddress>)
    returns (r: Result<string, LinkError>)
    ensures r == ApplyFiles(bytecode, linkReferences, libraries)
  {
    var code := bytecode;
    var i := 0;
    while i < |linkReferences|
      invariant 0 <= i <= |linkReferences|
      invariant ApplyFiles(bytecode, linkReferences[..i], libraries) == Success(code)
    {
      var file := linkReferences[i];
      ghost var fileStart := code;
      var j := 0;
      assert linkReferences[..i + 1][..i] == linkReferences[..i];
      while j < |file.contracts|
        invariant 0 <= j <= |file.contracts|
        invariant ApplyContracts(fileStart, file.contracts[..j], libraries) == Success(code)
      {
        var contract := file.contracts[j];
        assert file.contracts[..j + 1][..j] == file.contracts[..j];
        if contract.contractName !in libraries {
          MissingLibraryFailsLink(bytecode, linkReferences, i, fileStart, j, code, libraries);
          return Failure(MissingLinkLibrary(contract.contractName));
        }
        code := LinkContract(code, contract.references, libraries[contract.contractName]);
        j := j + 1;
      }
      assert file.contracts[..j] == file.contracts;
      i := i + 1;
    }
    assert linkReferences[..i] == linkReferences;
    return Success(code);
  }

  /** The references of one contract, spliced in order into the string the previous splice left. */
  method LinkContract(bytecode: string, references: seq<LinkReference>, address: HexAddress) returns (code: string)
    ensures code == ApplyReferences(bytecode, references, address)
  {
    code := bytecode;
    var k := 0;
    while k < |references|
      invariant 0 <= k <= |references|
      invariant ApplyReferences(bytecode, references[..k], address) == code
    {
      assert references[..k + 1][..k] == references[..k];
      code := Splice(code, references[k], address);
      k := k + 1;
    }
    assert references[..k] == references;
  }

  /** The j-th contract of the i-th file has no library, and everything before it linked: linking throws for it. */
  lemma MissingLibraryFailsLink(code: string, files: seq<FileReferences>, i: nat, fileStart: string, j: nat,
                                current: string, libraries: map<string, HexAddress>)
    requires i < |files| && j < |files[i].contracts|
    requires ApplyFiles(code, files[..i], libraries) == Success(fileStart)
    requires ApplyContracts(fileStart, files[i].contracts[..j], libraries) == Success(current)
    requires files[i].contracts[j].contractName !in libraries
    ensures ApplyFiles(code, files, libraries) == Failure(MissingLinkLibrary(files[i].contracts[j].contractName))
  {
    var name := files[i].contracts[j].contractName;
    MissingLibraryFailsContracts(fileStart, files[i].contracts, j, current, libraries);
    assert files[..i + 1][..i] == files[..i] && files[..i + 1][i] == files[i];
    assert ApplyFiles(code, files[..i + 1], libraries) == Failure(MissingLinkLibrary(name));
    FileFailurePersists(code, files, i + 1, libraries);
  }

  /** The j-th contract has no library, and the contracts before it linked: the file's contracts throw for it. */
  lemma MissingLibraryFailsContracts(code: string, contracts: seq<ContractReferences>, j: nat, current: string,
                                     libraries: map<string, HexAddress>)
    requires j < |contracts|
    requires ApplyContracts(code, contracts[..j], libraries) == Success(current)
    requires contracts[j].contractName !in libraries
    ensures ApplyContracts(code, contracts, libraries) == Failure(MissingLinkLibrary(contracts[j].contractName))
  {
    assert contracts[..j + 1][..j] == contracts[..j] && contracts[..j + 1][j] == contracts[j];
    assert ApplyContracts(code, contracts[..j + 1], libraries) == Failure(MissingLinkLibrary(contracts[j].contractName));
    ContractFailurePersists(code, contracts, j + 1, libraries);
  }

  /** Once a prefix of the contracts throws, so do all of them, with the same error. */
  lemma {:induction false} ContractFailurePersists(code: string, contracts: seq<ContractReferences>, n: nat,
                                                   libraries: map<string, HexAddress>)
    requires n <= |contracts|
    requires ApplyContracts(code, contracts[..n], libraries).Failure?
    ensures ApplyContracts(code, contracts, libraries) == ApplyContracts(code, contracts[..n], libraries)
    decreases |contracts| - n
  {
    if n < |contracts| {
      assert contracts[..n + 1][..n] == contracts[..n];
      ContractFailurePersists(code, contracts, n + 1, libraries);
    } else {
      assert contracts[..n] == contracts;
    }
  }

  /** Once a prefix of the files throws, so do all of them, with the same error. */
  lemma {:induction false} FileFailurePersists(code: string, files: seq<FileReferences>, n: nat,
                                               libraries: map<string, HexAddress>)
    requires n <= |files|
    requires ApplyFiles(code, files[..n], libraries).Failure?
    ensures ApplyFiles(code, files, libraries) == ApplyFiles(code, files[..n], libraries)
    decreases |files| - n
  {
    if n < |files| {
      assert files[..n + 1][..n] == files[..n];
      FileFailurePersists(code, files, n + 1, libraries);
    } else {
      assert files[..n] == files;
    }
  }

  /** The contracts of one file throw exactly when one of their names has no library. */
  lemma {:induction false} ContractsFailIffUncovered(code: string, contracts: seq<ContractReferences>,
                                                     libraries: map<string, HexAddress>)
    ensures ApplyContracts(code, contracts, libraries).Failure? <==> !ContractsCovered(contracts, libraries)
    decreases |contracts|
  {
    if contracts != [] {
      var init := contracts[..|contracts| - 1];
      ContractsFailIffUncovered(code, init, libraries);
      ContractsCoverSplitsAtLast(contracts, libraries);
    }
  }

  /** Covering all contracts is covering all but the last and the last one's name. */
  lemma ContractsCoverSplitsAtLast(contracts: seq<ContractReferences>, libraries: map<string, HexAddress>)
    requires contracts != []
    ensures ContractsCovered(contracts, libraries) <==>
      ContractsCovered(contracts[..|contracts| - 1], libraries) && contracts[|contracts| - 1].contractName in libraries
  {
    var init := contracts[..|contracts| - 1];
    assert forall j :: 0 <= j < |init| ==> init[j] == contracts[j];
  }

  /** Linking throws exactly when some referenced contract name has no library. */
  lemma {:induction false} LinkFailsIffUncovered(code: string, files: seq<FileReferences>,
                                                 libraries: map<string, HexAddress>)
    ensures ApplyFiles(code, files, libraries).Failure? <==> !LibrariesCover(files, libraries)
    decreases |files|
  {
    if files != [] {
      var init := files[..|files| - 1];
      var last := files[|files| - 1];
      LinkFailsIffUncovered(code, init, libraries);
      CoverSplitsAtLast(files, libraries);
      match ApplyFiles(code, init, libraries)
      case Failure(_) =>
      case Success(c) =>
        ContractsFailIffUncovered(c, last.contracts, libraries);
    }
  }

  /** A throw from one file names one of that file's contract names. */
  lemma {:induction false} ApplyContractsErrorNamesAContract(code: string, contracts: seq<ContractReferences>,
                                                             libraries: map<string, HexAddress>)
    ensures ApplyContracts(code, contracts, libraries).Failure? ==>
      exists j :: 0 <= j < |contracts| && contracts[j].contractName == ApplyContracts(code, contracts, libraries).error.contractName
    decreases |contracts|
  {
    if contracts != [] {
      var init := contracts[..|contracts| - 1];
      var last := contracts[|contracts| - 1];
      ApplyContractsErrorNamesAContract(code, init, libraries);
      match ApplyContracts(code, init, libraries)
      case Failure(e) =>
        var j :| 0 <= j < |init| && init[j].contractName == e.contractName;
        assert contracts[j] == init[j];
      case Success(c) =>
        if last.contractName !in libraries {
          assert contracts[|contracts| - 1].contractName == last.contractName;
        }
    }
  }

  /** A throw from the link names a contract name referenced from one of the files. */
  lemma {:induction false} ApplyFilesErrorNamesAContract(code: string, files: seq<FileReferences>,
                                                         libraries: map<string, HexAddress>)
    ensures ApplyFiles(code, files, libraries).Failure? ==>
      exists i, j :: 0 <= i < |files| && 0 <= j < |files[i].contracts| &&
        files[i].contracts[j].contractName == ApplyFiles(code, files, libraries).error.contractName
    decreases |files|
  {
    if files != [] {
      var init := files[..|files| - 1];
      var last := files[|files| - 1];
      ApplyFilesErrorNamesAContract(code, init, libraries);
      match ApplyFiles(code, init, libraries)
      case Failure(e) =>
        var i, j :| 0 <= i < |init| && 0 <= j < |init[i].contracts| && init[i].contracts[j].contractName == e.contractName;
        assert files[i] == init[i];
      case Success(c) =>
        ApplyContractsErrorNamesAContract(c, last.contracts, libraries);
        if ApplyContracts(c, last.contracts, libraries).Failure? {
          var j :| 0 <= j < |last.contracts| &&
            last.contracts[j].contractName == ApplyContracts(c, last.contracts, libraries).error.contractName;
          assert files[|files| - 1].contracts[j] == last.contracts[j];
        }
    }
  }

  /** Covering all files is covering all but the last and the last one's contracts. */
  lemma CoverSplitsAtLast(files: seq<FileReferences>, libraries: map<string, HexAddress>)
    requires files != []
    ensures LibrariesCover(files, libraries) <==>
      && LibrariesCover(files[..|files| - 1], libraries)
      && ContractsCovered(files[|files| - 1].contracts, libraries)
  {
    var init := files[..|files| - 1];
    assert forall i :: 0 <= i < |init| ==> init[i] == files[i];
  }

  /** Applying two runs of references in turn is applying their concatenation. */
  lemma {:induction false} ApplyReferencesConcat(code: string, first: seq<LinkReference>,
                                                 second: seq<LinkReference>, address: HexAddress)
    ensures ApplyReferences(code, first + second, address)
      == ApplyReferences(ApplyReferences(code, first, address), second, address)
    decreases |second|
  {
    if second == [] {
      assert first + second == first;
    } else {
      var init := second[..|second| - 1];
      assert (first + second)[..|first + second| - 1] == first + init;
      ApplyReferencesConcat(code, first, init, address);
    }
  }

  /** Every reference of every contract is 20 bytes long and ends within n characters. */
  ghost predicate AddressSizedWithin(files: seq<FileReferences>, n: nat)
  {
    forall i, j, k ::
      0 <= i < |files| && 0 <= j < |files[i].contracts| && 0 <= k < |files[i].contracts[j].references| ==>
      files[i].contracts[j].references[k].length == 20 && CharEnd(files[i].contracts[j].references[k]) <= n
  }

  /** A file whose references are all 20-byte slots inside the bytecode keeps its length when it links. */
  lemma {:induction false} ApplyContractsKeepsLength(code: string, contracts: seq<ContractReferences>,
                                                     libraries: map<string, HexAddress>)
    requires forall j, k :: 0 <= j < |contracts| && 0 <= k < |contracts[j].references| ==>
      contracts[j].references[k].length == 20 && CharEnd(contracts[j].references[k]) <= |code|
    ensures ApplyContracts(code, contracts, libraries).Success? ==>
      |ApplyContracts(code, contracts, libraries).value| == |code|
    decreases |contracts|
  {
    if contracts != [] {
      var init := contracts[..|contracts| - 1];
      var last := contracts[|contracts| - 1];
      ApplyContractsKeepsLength(code, init, libraries);
      match ApplyContracts(code, init, libraries)
      case Failure(_) =>
      case Success(c) =>
    }
  }

  /**
   * When every reference is a 20-byte address slot inside the bytecode, as for
   * the position descriptor's NFTDescriptor library, linking keeps the length.
   */
  lemma {:induction false} LinkKeepsLength(code: string, files: seq<FileReferences>,
                                           libraries: map<string, HexAddress>)
    requires AddressSizedWithin(files, |code|)
    ensures ApplyFiles(code, files, libraries).Success? ==> |ApplyFiles(code, files, libraries).value| == |code|
    decreases |files|
  {
    if files != [] {
      var init := files[..|files| - 1];
      var last := files[|files| - 1];
      assert AddressSizedWithin(init, |code|) by {
        assert forall i :: 0 <= i < |init| ==> init[i] == files[i];
      }
      LinkKeepsLength(code, init, libraries);
      match ApplyFiles(code, init, libraries)
      case Failure(_) =>
      case Success(c) =>
        assert last == files[|files| - 1];
        ApplyContractsKeepsLength(c, last.contracts, libraries);
    }
  }

  /** Contract entries with no references leave the bytecode as it is once their libraries exist. */
  lemma {:induction false} EmptyReferencesKeepBytecode(code: string, files: seq<FileReferences>,
                                                       libraries: map<string, HexAddress>)
    requires LibrariesCover(files, libraries)
    requires forall i, j :: 0 <= i < |files| && 0 <= j < |files[i].contracts| ==>
      files[i].contracts[j].references == []
    ensures ApplyFiles(code, files, libraries) == Success(code)
    decreases |files|
  {
    if files != [] {
      var init := files[..|files| - 1];
      assert forall i :: 0 <= i < |init| ==> init[i] == files[i];
      EmptyReferencesKeepBytecode(code, init, libraries);
      EmptyContractsKeepBytecode(code, files[|files| - 1].contracts, libraries);
    }
  }

  /** Contracts that all have a library and no references leave one file's bytecode as it is. */
  lemma {:induction false} EmptyContractsKeepBytecode(code: string, contracts: seq<ContractReferences>,
                                                      libraries: map<string, HexAddress>)
    requires forall j :: 0 <= j < |contracts| ==>
      contracts[j].contractName in libraries && contracts[j].references == []
    ensures ApplyContracts(code, contracts, libraries) == Success(code)
    decreases |contracts|
  {
    if contracts != [] {
      EmptyContractsKeepBytecode(code, contracts[..|contracts| - 1], libraries);
    }
  }
}
