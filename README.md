# Distributed transaction context and `gpctl init` configuration checks

This project models two parts of Greenplum.

**The distributed-transaction context descriptor** (`src/backend/cdb/cdbdtxcontextinfo.c`). The coordinator
attaches a `DtxContextInfo` to every command it dispatches. It holds:

- the distributed transaction id and command id;
- a per-session dispatch-unit tag (`segmateSync`), drawn from a backend-wide counter that starts at 1;
- the nesting level, the cursor flag and the transaction options;
- a snapshot payload that depends on the snapshot mode. It is empty in local mode, a distributed
  snapshot in distributed mode, and a restore-point name in restore-point mode.

The model covers how the descriptor is filled on the coordinator, reset, copied, sized, serialized into a
byte buffer and deserialized on a segment. The proof shows that deserialization gives back what was
serialized.

**The `gpctl init` configuration front end** (`gpMgmt/bin/go-tools/gpctl/cli/init.go`) and
`GetListDifference` (`gpMgmt/bin/go-tools/gpservice/pkg/utils/sys_utils.go`). The model covers:

- validation of the expansion keys (`hostlist`, base ports, data directories, mirroring type), and the
  defaults they receive;
- the multi-home checks;
- expansion of those keys into primary/mirror segment pairs for the single-address and multi-home layouts,
  with group or spread mirroring;
- conversion of the configuration into the make-cluster request;
- validation of that request: segment completeness, duplicate data directories and ports (with the port
  lookup as the source writes it, see "## Findings"), hosts without services configured, encoding, `max_connections` defaults and `shared_buffers` defaults.

Modules and their files:

- `WireBytes` (wire_bytes.dfy): fixed-width integers and their little-endian byte images.
- `DistributedSnapshots` (distributed_snapshot.dfy): the distributed snapshot as this file uses it.
- `CdbDtxContextInfo` (dtx_context_info.dfy): the descriptor as a class; the backend's `syncCount` as a
  `Session` object.
- `GoStrings` (go_strings.dfy): `strings.TrimSpace`, `strings.ToLower`, `strconv.Itoa`/`Atoi`, and Go's
  `int`/`int32` wrap-around.
- `StringOrder` (string_order.dfy): `slices.Sort` and `slices.Compact` on strings.
- `SysUtils` (sys_utils.dfy): `GetListDifference`.
- `InitTypes` (init_types.dfy): the configuration and request records.
- `InitConfigValidation` (init_config.dfy): expansion-key validation and multi-home checks.
- `SegmentExpansion` (segment_expansion.dfy): the six expansion loops and `ExpandSegPairArray`.
- `ConfigParams` (cluster_params.dfy): the `ClusterParams` settings maps and their defaults.
- `SegmentChecks` (segment_checks.dfy): `ValidateSegment`, the duplicate check and the services check.
- `ClusterRequest` (cluster_request.dfy): building the request.
- `InitValidation` (init_validation.dfy): `ValidateInputConfigAndSetDefaultsFn`.

The modelling follows each source file's own form:

- The C descriptor and the Go request are classes whose methods update fields in place.
- Go slices and maps are `seq` and `map` values.
- Loops that build or scan them are methods with loop invariants. Each is proved equal to a specification
  function, and the properties are then proved about that function.
- A Go `nil` pointer is an `Option`.
- A returned Go `error` is an `Option` of an error datatype that names the failing check.
- Viper's `IsSet` is the set of keys present in the configuration file.

## Model

| member | source | states |
|---|---|---|
| CdbDtxContextInfo.Session.constructor | src/backend/cdb/cdbdtxcontextinfo.c:34 | the backend's dispatch tag counter starts at 1 |
| CdbDtxContextInfo.DtxContextInfo.constructor | src/backend/cdb/cdbdtxcontextinfo.c:263-286 | a new descriptor is in the reset state (invalid xid, command id 0, local mode, zeroed payload) |
| CdbDtxContextInfo.Increment32 | src/backend/cdb/cdbdtxcontextinfo.c:57 | `++syncCount` on a uint32 adds exactly one below the 2^32-1 limit |
| CdbDtxContextInfo.NextSyncCountAdvances | src/backend/cdb/cdbdtxcontextinfo.c:53-57 | inside a cursor the counter is reused unchanged; otherwise it is pre-incremented, wrapping to 0 after 2^32-1 |
| CdbDtxContextInfo.SyncCountAfterCounts | src/backend/cdb/cdbdtxcontextinfo.c:53-57 | after a run of dispatches the counter has advanced by exactly the number of non-cursor dispatches |
| CdbDtxContextInfo.NonCursorTagExceedsEarlier | src/backend/cdb/cdbdtxcontextinfo.c:53-61 | below the FATAL limit, a non-cursor dispatch gets a tag strictly larger than every earlier dispatch's tag |
| CdbDtxContextInfo.CreatedOnCoordinatorProperties | src/backend/cdb/cdbdtxcontextinfo.c:37-88 | the descriptor built on the coordinator carries the current xid, the snapshot's command id only for a valid xid, the tag, and, unless the tag hit the limit, the cursor flag, nesting level, options, the snapshot's mode, and a payload equal to the snapshot's distributed snapshot or its restore-point name cut to MAXFNAMELEN-1 characters |
| CdbDtxContextInfo.CreatedOnCoordinatorWellFormed | src/backend/cdb/cdbdtxcontextinfo.c:37-88 | filling the descriptor keeps its mode and payload slot consistent |
| CdbDtxContextInfo.DtxContextInfo.CreateOnCoordinator | src/backend/cdb/cdbdtxcontextinfo.c:37-88 | the session counter advances as above; FATAL is raised exactly when the new tag equals 2^32-1; the descriptor becomes the coordinator-built value |
| CdbDtxContextInfo.ResetProperties | src/backend/cdb/cdbdtxcontextinfo.c:263-286 | a reset leaves no payload, keeps the cursor flag and the snapshot's xid buffer, and is idempotent |
| CdbDtxContextInfo.DtxContextInfo.Reset | src/backend/cdb/cdbdtxcontextinfo.c:263-286 | the descriptor becomes the reset of its old value |
| CdbDtxContextInfo.DtxContextInfo.Copy | src/backend/cdb/cdbdtxcontextinfo.c:289-310 | the target gets every scalar field of the source; a distributed snapshot is copied into the target's own reset buffer and reads the same; a restore-point name is copied with StrNCpy; any other mode leaves the reset payload |
| CdbDtxContextInfo.ZeroName | src/backend/cdb/cdbdtxcontextinfo.c:280 | the cleared restore-point name is MAXFNAMELEN zero bytes |
| CdbDtxContextInfo.CStrLen | src/backend/cdb/cdbdtxcontextinfo.c:83 | the length of a C string: no NUL before it and a NUL at it, if in range |
| CdbDtxContextInfo.StrNCpy | src/backend/cdb/cdbdtxcontextinfo.c:83 | StrNCpy always fills MAXFNAMELEN bytes and NUL-terminates the last one |
| CdbDtxContextInfo.StrNCpyKeepsName | src/backend/cdb/cdbdtxcontextinfo.c:83 | the copied name reads as the source name, truncated to MAXFNAMELEN-1 characters when longer; copying twice changes nothing |
| CdbDtxContextInfo.Encode | src/backend/cdb/cdbdtxcontextinfo.c:138-220 | the serialized image is exactly SerializeSize bytes, less the TMGIDSIZE bytes that the size reserves for a valid xid and that serialization never writes |
| CdbDtxContextInfo.DtxContextInfo.Serialize | src/backend/cdb/cdbdtxcontextinfo.c:172-220 | the buffer's first `used` bytes are the encoded descriptor; `used` does not exceed SerializeSize; the rest of the buffer is untouched |
| CdbDtxContextInfo.MemCpy | src/backend/cdb/cdbdtxcontextinfo.c:179-219 | each memcpy writes its bytes at the cursor, advances it by their length and leaves the rest of the buffer alone |
| CdbDtxContextInfo.DecodePayload | src/backend/cdb/cdbdtxcontextinfo.c:378-394 | decoding a payload never consumes more bytes than are present |
| CdbDtxContextInfo.DecodeFields | src/backend/cdb/cdbdtxcontextinfo.c:363-397 | decoding into a reset descriptor yields a well-formed descriptor |
| CdbDtxContextInfo.DecodeInto | src/backend/cdb/cdbdtxcontextinfo.c:341-397 | as DecodeFields, for the whole image including the xid and command id |
| CdbDtxContextInfo.DecodeEncodeFields | src/backend/cdb/cdbdtxcontextinfo.c:197-219 | the fields after the command id decode to what was written |
| CdbDtxContextInfo.DeserializeSerialize | src/backend/cdb/cdbdtxcontextinfo.c:172-397 | deserializing a serialized descriptor into any reset descriptor reproduces every field and the payload (command id 0 when the xid is invalid) |
| CdbDtxContextInfo.DtxContextInfo.Deserialize | src/backend/cdb/cdbdtxcontextinfo.c:334-397 | a non-positive length leaves the reset descriptor; otherwise the descriptor is the decoded image over its reset state |
| DistributedSnapshots.Zeroed | src/backend/cdb/cdbdtxcontextinfo.c:278 | the zeroed snapshot is valid and has no xid buffer |
| DistributedSnapshots.Reset | src/backend/cdb/cdbdtxcontextinfo.c:278 | a reset snapshot reads as the empty one but keeps its xid buffer |
| DistributedSnapshots.Fill | src/backend/cdb/cdbdtxcontextinfo.c:80-81 | copying xids into a buffer grows it only when needed and puts the xids first |
| DistributedSnapshots.Copy | src/backend/cdb/cdbdtxcontextinfo.c:80-81 | the copy reads the same as the source and never shrinks the target's buffer |
| DistributedSnapshots.EncodeXids | src/backend/cdb/cdbdtxcontextinfo.c:211 | each in-progress xid takes 8 bytes |
| DistributedSnapshots.DecodeEncodeXids | src/backend/cdb/cdbdtxcontextinfo.c:208-212 | encoded xids decode back, whatever follows them |
| DistributedSnapshots.Serialize | src/backend/cdb/cdbdtxcontextinfo.c:208-212 | the serialized snapshot is exactly its announced size |
| DistributedSnapshots.Deserialize | src/backend/cdb/cdbdtxcontextinfo.c:383 | a successful decode is valid, consumes exactly its own size and never shrinks the target's xid buffer |
| DistributedSnapshots.DeserializeSerialize | src/backend/cdb/cdbdtxcontextinfo.c:378-384 | a serialized snapshot deserializes into any target to the same snapshot and consumes its size |
| WireBytes.DecodeEncodeLE | src/backend/cdb/cdbdtxcontextinfo.c:179-219 | a little-endian image of a value decodes back to it |
| WireBytes.EncodeDecodeLE | src/backend/cdb/cdbdtxcontextinfo.c:351-396 | decoding then re-encoding a byte image gives the same bytes |
| WireBytes.U32RoundTrip | src/backend/cdb/cdbdtxcontextinfo.c:197 | a uint32 field survives memcpy out and back |
| WireBytes.U64RoundTrip | src/backend/cdb/cdbdtxcontextinfo.c:179 | the 64-bit xid survives memcpy out and back |
| WireBytes.I32RoundTrip | src/backend/cdb/cdbdtxcontextinfo.c:219 | the int options survive memcpy out and back |
| GoStrings.WrapInt64 | gpMgmt/bin/go-tools/gpctl/cli/init.go:1055 | Go `int` arithmetic: the result is in range, congruent mod 2^64, and unchanged when already in range |
| GoStrings.WrapInt32 | gpMgmt/bin/go-tools/gpctl/cli/init.go:785 | `int32(x)`: in range, congruent mod 2^32, unchanged when already in range |
| GoStrings.TrimLeftSpace | gpMgmt/bin/go-tools/gpctl/cli/init.go:480 | removes a prefix; what remains does not start with white space |
| GoStrings.TrimRightSpace | gpMgmt/bin/go-tools/gpctl/cli/init.go:480 | removes a suffix; what remains does not end with white space |
| GoStrings.TrimSpaceEmpty | gpMgmt/bin/go-tools/gpctl/cli/init.go:480 | `strings.TrimSpace(s) == ""` exactly when every character of s is white space |
| GoStrings.ToLowerIdempotent | gpMgmt/bin/go-tools/gpctl/cli/init.go:561-570 | lower-casing twice is lower-casing once |
| GoStrings.ToLowerKeepsLower | gpMgmt/bin/go-tools/gpctl/cli/init.go:561-563 | a string without capitals is its own lower case |
| GoStrings.DigitsValueOfDigits | gpMgmt/bin/go-tools/gpctl/cli/init.go:1030 | the decimal digits of n read back as n |
| GoStrings.DigitsInjective | gpMgmt/bin/go-tools/gpctl/cli/init.go:1057 | different numbers have different decimal forms |
| GoStrings.Atoi | gpMgmt/bin/go-tools/gpctl/cli/init.go:1038 | `strconv.Atoi` accepts only non-empty text and only values that fit in an `int` |
| GoStrings.AtoiItoa | gpMgmt/bin/go-tools/gpctl/cli/init.go:1030-1038 | every `int` formatted by `strconv.Itoa` parses back to itself |
| StringOrder.LessIrreflexive | gpMgmt/bin/go-tools/gpctl/cli/init.go:1011 | string order is irreflexive |
| StringOrder.LessTransitive | gpMgmt/bin/go-tools/gpctl/cli/init.go:1011 | string order is transitive |
| StringOrder.LessTotal | gpMgmt/bin/go-tools/gpctl/cli/init.go:1011 | any two strings are equal or ordered one way |
| StringOrder.Sort | gpMgmt/bin/go-tools/gpctl/cli/init.go:1011 | `slices.Sort` returns a sorted permutation of its input |
| StringOrder.SortedUnique | gpMgmt/bin/go-tools/gpctl/cli/init.go:717-724 | two sorted permutations of the same strings are equal |
| StringOrder.SortDependsOnlyOnElements | gpMgmt/bin/go-tools/gpctl/cli/init.go:721-724 | the sorted host-name list does not depend on Go's map iteration order |
| StringOrder.Compact | gpMgmt/bin/go-tools/gpctl/cli/init.go:1012 | `slices.Compact` keeps exactly the same elements and the first one, never growing |
| StringOrder.CompactSortedIsStrict | gpMgmt/bin/go-tools/gpctl/cli/init.go:1011-1012 | compacting a sorted list leaves it free of duplicates |
| SysUtils.GetListDifference | gpMgmt/bin/go-tools/gpservice/pkg/utils/sys_utils.go:159-174 | the result keeps, in order, exactly the elements of listA not in listB, each as often as in listA |
| SysUtils.DifferenceMembers | gpMgmt/bin/go-tools/gpservice/pkg/utils/sys_utils.go:159-174 | x is in the difference exactly when it is in listA and not in listB |
| SysUtils.DifferenceCounts | gpMgmt/bin/go-tools/gpservice/pkg/utils/sys_utils.go:159-174 | multiplicities: zero for listed elements, as in listA otherwise |
| SysUtils.DifferenceAppend | gpMgmt/bin/go-tools/gpservice/pkg/utils/sys_utils.go:167-171 | the difference distributes over concatenation of listA |
| SysUtils.DifferenceOfEmpty | gpMgmt/bin/go-tools/gpservice/pkg/utils/sys_utils.go:159-174 | removing nothing returns listA |
| SysUtils.DifferenceDropsListed | gpMgmt/bin/go-tools/gpservice/pkg/utils/sys_utils.go:159-174 | when every element of listA is listed the difference is empty |
| InitTypes.PrimarySegments | gpMgmt/bin/go-tools/gpctl/cli/init.go:845 | the request's primary segments are exactly the present primaries of its pairs |
| InitTypes.MirrorSegments | gpMgmt/bin/go-tools/gpctl/cli/init.go:846 | the request's mirror segments are exactly the present mirrors of its pairs |
| InitTypes.PrimarySegmentsComplete | gpMgmt/bin/go-tools/gpctl/cli/init.go:852-854 | there are as many primaries as pairs exactly when every pair has one |
| InitTypes.MirrorSegmentsComplete | gpMgmt/bin/go-tools/gpctl/cli/init.go:856-858 | there are as many mirrors as pairs exactly when every pair has one |
| InitTypes.MirrorSegmentsNone | gpMgmt/bin/go-tools/gpctl/cli/init.go:856 | there are no mirrors exactly when no pair has one |
| InitConfigValidation.ValidateStringArray | gpMgmt/bin/go-tools/gpctl/cli/init.go:478-485 | accepts exactly the lists with no entry that trims to empty |
| InitConfigValidation.ValidateStringArrayMeans | gpMgmt/bin/go-tools/gpctl/cli/init.go:478-485 | accepts exactly the lists with no all-white-space entry |
| InitConfigValidation.AnySet | gpMgmt/bin/go-tools/gpctl/cli/init.go:457-462 | true exactly when some key of the list is set |
| InitConfigValidation.AnyExpansionConfigPresent | gpMgmt/bin/go-tools/gpctl/cli/init.go:455-463 | true exactly when one of the six expansion keys is set |
| InitConfigValidation.AnyExpansionMirrorConfigPresent | gpMgmt/bin/go-tools/gpctl/cli/init.go:465-474 | true exactly when one of the three mirror keys is set, which implies an expansion key is set |
| InitConfigValidation.MirroringTypesLowerCase | gpMgmt/bin/go-tools/gpctl/cli/init.go:561-570 | "group" and "spread" are their own lower case |
| InitConfigValidation.ExpansionValidated | gpMgmt/bin/go-tools/gpctl/cli/init.go:487-582 | only the ports and mirroring type change; on success the expansion is well formed, mirrors are on exactly when a mirror key is set, and the defaults are applied |
| InitConfigValidation.PortsValidated | gpMgmt/bin/go-tools/gpctl/cli/init.go:510-582 | the part after the list checks: the same guarantees, given non-empty, non-blank directory and host lists |
| InitConfigValidation.MirrorExpansionValidated | gpMgmt/bin/go-tools/gpctl/cli/init.go:525-575 | mirrors are on; on success the mirror base port defaults to primary base port + 1000 and the mirroring type defaults to "group", or is the lower-cased value |
| InitConfigValidation.MirrorPortValidated | gpMgmt/bin/go-tools/gpctl/cli/init.go:540-575 | the mirror-port checks change only the mirroring type and set it as above |
| InitConfigValidation.MirroringTypeValidated | gpMgmt/bin/go-tools/gpctl/cli/init.go:556-575 | the mirroring-type step changes only that type, as above |
| InitConfigValidation.ExpansionAcceptedExactly | gpMgmt/bin/go-tools/gpctl/cli/init.go:487-582 | the validation succeeds exactly on the acceptable configurations (no explicit segment array, non-empty non-blank lists, valid distinct ports, valid mirror settings) |
| InitConfigValidation.PortsAcceptedExactly | gpMgmt/bin/go-tools/gpctl/cli/init.go:510-582 | the port stage succeeds exactly when the primary base port is valid, differs from the coordinator's, and the mirror settings are acceptable when present |
| InitConfigValidation.MirrorsAcceptedExactly | gpMgmt/bin/go-tools/gpctl/cli/init.go:525-575 | the mirror stage succeeds exactly on acceptable mirror settings |
| InitConfigValidation.MirroringTypeAcceptedExactly | gpMgmt/bin/go-tools/gpctl/cli/init.go:556-575 | the type check succeeds exactly for "group", or for "spread" with fewer mirror directories than hosts |
| InitConfigValidation.ExpansionValidatedIdempotent | gpMgmt/bin/go-tools/gpctl/cli/init.go:487-582 | validating an already validated configuration changes nothing |
| InitConfigValidation.PortsValidatedIdempotent | gpMgmt/bin/go-tools/gpctl/cli/init.go:510-582 | the port stage is idempotent |
| InitConfigValidation.MirrorExpansionValidatedIdempotent | gpMgmt/bin/go-tools/gpctl/cli/init.go:525-575 | the mirror stage is idempotent |
| InitConfigValidation.MirroringTypeValidatedIdempotent | gpMgmt/bin/go-tools/gpctl/cli/init.go:556-575 | the mirroring-type stage is idempotent |
| InitConfigValidation.InitSession.constructor | gpMgmt/bin/go-tools/gpctl/cli/init.go:89 | a session starts from its configuration with ContainsMirror off |
| InitConfigValidation.InitSession.ValidateExpansionConfigAndSetDefault | gpMgmt/bin/go-tools/gpctl/cli/init.go:487-582 | the configuration, ContainsMirror and the error become those of ExpansionValidated |
| InitConfigValidation.InitSession.ValidateExpansionPorts | gpMgmt/bin/go-tools/gpctl/cli/init.go:510-582 | the port stage, in place |
| InitConfigValidation.InitSession.ValidateMirrorExpansion | gpMgmt/bin/go-tools/gpctl/cli/init.go:525-575 | the mirror stage, in place |
| InitConfigValidation.InitSession.ValidateMirroringType | gpMgmt/bin/go-tools/gpctl/cli/init.go:556-575 | the mirroring-type stage, in place |
| InitConfigValidation.ValidateMultiHomeConfig | gpMgmt/bin/go-tools/gpctl/cli/init.go:396-424 | fails with the unequal-count error exactly when the hosts have different address counts; otherwise it gives the verdict on directories per address and spread-mirroring host count |
| SegmentExpansion.SegmentDataDirectoryDistinct | gpMgmt/bin/go-tools/gpctl/cli/init.go:592 | directories named for different segment numbers differ |
| SegmentExpansion.HostIndex | gpMgmt/bin/go-tools/gpctl/cli/init.go:603-708 | the host chosen for a segment is a valid host index |
| SegmentExpansion.Cell | gpMgmt/bin/go-tools/gpctl/cli/init.go:584-708 | segment (host i, directory j) gets port base+j, directory j with segment number i*d+j, and its host's name and one of that host's addresses |
| SegmentExpansion.Expansion | gpMgmt/bin/go-tools/gpctl/cli/init.go:584-708 | the expansion has hosts x directories segments |
| SegmentExpansion.ExpansionAt | gpMgmt/bin/go-tools/gpctl/cli/init.go:584-708 | segment i*d+j of the expansion is the cell (i, j): host-major, directory-minor order |
| SegmentExpansion.ExpansionAtIndex | gpMgmt/bin/go-tools/gpctl/cli/init.go:584-708 | segment k has port base + k mod d and directory number k |
| SegmentExpansion.GroupMirrorMoves | gpMgmt/bin/go-tools/gpctl/cli/init.go:600-618 | with two or more hosts, group mirroring puts every mirror on a different host from its primary |
| SegmentExpansion.SingleAddressSpreadMoves | gpMgmt/bin/go-tools/gpctl/cli/init.go:620-641 | single-address spread mirroring moves a mirror off its primary's host exactly when (j+1) mod hosts is not 0 |
| SegmentExpansion.MultiHomeSpreadMoves | gpMgmt/bin/go-tools/gpctl/cli/init.go:683-708 | multi-home spread mirroring with two or more hosts always moves the mirror |
| SegmentExpansion.MirrorHostDiffers | gpMgmt/bin/go-tools/gpctl/cli/init.go:600-708 | under the accepted host counts the mirror host differs from the primary host |
| SegmentExpansion.MirrorAwayFromPrimary | gpMgmt/bin/go-tools/gpctl/cli/init.go:584-708 | with distinct hosts, each mirror is on a different address (single-address) or host name (multi-home) from its primary |
| SegmentExpansion.DataDirectoriesDistinct | gpMgmt/bin/go-tools/gpctl/cli/init.go:584-599 | no two segments of one expansion share a data directory |
| SegmentExpansion.PrimaryEndpointsDistinct | gpMgmt/bin/go-tools/gpctl/cli/init.go:584-599 | no two primaries of one expansion share an address and port (host name and port for multi-home) |
| SegmentExpansion.MultiHomeAddressesBelong | gpMgmt/bin/go-tools/gpctl/cli/init.go:643-708 | every multi-home segment uses one of its own host's addresses |
| SegmentExpansion.WithMirrors | gpMgmt/bin/go-tools/gpctl/cli/init.go:600-618 | filling in mirrors keeps the number of pairs |
| SegmentExpansion.WithPrimariesAt | gpMgmt/bin/go-tools/gpctl/cli/init.go:584-599 | appending primaries keeps the earlier pairs and adds mirror-less pairs in order |
| SegmentExpansion.WithMirrorsAt | gpMgmt/bin/go-tools/gpctl/cli/init.go:600-618 | pair k gets mirror k; later pairs are untouched |
| SegmentExpansion.SingleAddressAt | gpMgmt/bin/go-tools/gpctl/cli/init.go:584-641 | a single-address segment's name is looked up from its address, which is its host-list entry |
| SegmentExpansion.MultiHomeAt | gpMgmt/bin/go-tools/gpctl/cli/init.go:643-708 | a multi-home segment's address is entry j (or i+j for spread) modulo the address count of its host |
| SegmentExpansion.ExpandNonMultiHomePrimaryList | gpMgmt/bin/go-tools/gpctl/cli/init.go:584-599 | appends the single-address primary expansion |
| SegmentExpansion.ExpandNonMultiHomeGroupMirrorList | gpMgmt/bin/go-tools/gpctl/cli/init.go:600-618 | fills mirrors with the single-address group expansion |
| SegmentExpansion.ExpandNonMultiHomeSpreadMirroring | gpMgmt/bin/go-tools/gpctl/cli/init.go:620-641 | fills mirrors with the single-address spread expansion |
| SegmentExpansion.ExpandMultiHomePrimaryArray | gpMgmt/bin/go-tools/gpctl/cli/init.go:643-659 | appends the multi-home primary expansion |
| SegmentExpansion.ExpandMultiHomeGroupMirrorList | gpMgmt/bin/go-tools/gpctl/cli/init.go:661-681 | fills mirrors with the multi-home group expansion |
| SegmentExpansion.ExpandMultiHomeSpreadMirrorList | gpMgmt/bin/go-tools/gpctl/cli/init.go:683-708 | fills mirrors with the multi-home spread expansion |
| SegmentExpansion.MirrorPlacement | gpMgmt/bin/go-tools/gpctl/cli/init.go:730-750 | "group" selects group mirroring; anything else selects spread |
| SegmentExpansion.SortedHostnamesListKeys | gpMgmt/bin/go-tools/gpctl/cli/init.go:719-724 | the multi-home host list is the map's keys, each once, sorted |
| SegmentExpansion.HostsOfConfig | gpMgmt/bin/go-tools/gpctl/cli/init.go:714-757 | the hosts used are the sorted host list or sorted host names, enough for the directories |
| SegmentExpansion.ExpandSegPairArray | gpMgmt/bin/go-tools/gpctl/cli/init.go:714-757 | the result is the primary expansion with the chosen mirror expansion filled in when mirrors are on |
| SegmentExpansion.ExpandedPairsAt | gpMgmt/bin/go-tools/gpctl/cli/init.go:714-757 | pair k holds primary k and, with mirrors, mirror k of the same index |
| ConfigParams.WithDefault | gpMgmt/bin/go-tools/gpctl/cli/init.go:1068-1071 | sets a key only when it is absent, keeping every existing entry |
| ConfigParams.DefaultConfigParam | gpMgmt/bin/go-tools/gpctl/cli/init.go:1067-1083 | the key is present in all three maps afterwards; the common default is the given value; the coordinator and segment defaults copy the common value; nothing else changes |
| ConfigParams.DefaultConfigParamIdempotent | gpMgmt/bin/go-tools/gpctl/cli/init.go:1067-1083 | defaulting twice is defaulting once |
| ConfigParams.DefaultConfigParamOtherKeys | gpMgmt/bin/go-tools/gpctl/cli/init.go:1067-1083 | other keys are neither added nor removed |
| ConfigParams.ClusterParams.constructor | gpMgmt/bin/go-tools/gpctl/cli/init.go:798-818 | holds the given parameters |
| ConfigParams.ClusterParams.CheckAndSetDefaultConfigParams | gpMgmt/bin/go-tools/gpctl/cli/init.go:1067-1083 | the parameters become DefaultConfigParam of the old ones |
| ConfigParams.MaxConnectionsChecked | gpMgmt/bin/go-tools/gpctl/cli/init.go:1027-1060 | the common and coordinator values are always filled in, the coordinator value being the one checked; only the three maps change |
| ConfigParams.MaxConnectionsAccepted | gpMgmt/bin/go-tools/gpctl/cli/init.go:1027-1060 | succeeds exactly when the coordinator value parses to at least 1 and, if the segment value is missing, the common value parses |
| ConfigParams.MaxConnectionsSettled | gpMgmt/bin/go-tools/gpctl/cli/init.go:1027-1060 | on success all three maps hold max_connections; existing entries are untouched; a missing segment value is the common value x 3 |
| ConfigParams.MaxConnectionsIdempotent | gpMgmt/bin/go-tools/gpctl/cli/init.go:1027-1060 | validating twice is validating once |
| ConfigParams.MaxConnectionsChain | gpMgmt/bin/go-tools/gpctl/cli/init.go:1028-1037 | whatever the outcome, the coordinator holds its own max_connections, else the common one, else 150; the common map its own, else 150 |
| ConfigParams.MaxConnectionsDefaults | gpMgmt/bin/go-tools/gpctl/cli/init.go:1028-1058 | with nothing set, the coordinator gets 150 and the segments 450 |
| ConfigParams.ClusterParams.ValidateMaxConnections | gpMgmt/bin/go-tools/gpctl/cli/init.go:1027-1060 | the parameters and error become those of MaxConnectionsChecked |
| SegmentChecks.ValidateSegment | gpMgmt/bin/go-tools/gpctl/cli/init.go:910-929 | succeeds exactly on complete segments; the missing host name is reported first, then a bad port; an empty address is filled with the host name; no other field changes |
| SegmentChecks.ValidateSegmentIdempotent | gpMgmt/bin/go-tools/gpctl/cli/init.go:910-929 | a validated segment validates again unchanged |
| SegmentChecks.ValidateSegmentFillsAddress | gpMgmt/bin/go-tools/gpctl/cli/init.go:915-918 | a missing address becomes the host name |
| SegmentChecks.ValidateSegments | gpMgmt/bin/go-tools/gpctl/cli/init.go:865-870 | validating a list keeps its length |
| SegmentChecks.ValidateSegmentsMeans | gpMgmt/bin/go-tools/gpctl/cli/init.go:865-870 | the list passes exactly when every segment is complete, and then each is the validated segment |
| SegmentChecks.ValidateSegmentsStops | gpMgmt/bin/go-tools/gpctl/cli/init.go:865-870 | the loop stops at the first failing segment, leaving later ones unvalidated |
| SegmentChecks.DuplicateScanStops | gpMgmt/bin/go-tools/gpctl/cli/init.go:939-958 | the scan reports the first duplicate found |
| SegmentChecks.DuplicateScanMeans | gpMgmt/bin/go-tools/gpctl/cli/init.go:936-959 | the scan finds nothing exactly when no host name repeats a data directory and no segment's port is already recorded under its lookup key |
| SegmentChecks.DataDirectoriesRecordedMeans | gpMgmt/bin/go-tools/gpctl/cli/init.go:943-949 | the directory map records exactly the (host name, directory) pairs seen |
| SegmentChecks.PortsRecordedMeans | gpMgmt/bin/go-tools/gpctl/cli/init.go:951-956 | the port map records exactly the (address, port) pairs seen |
| SegmentChecks.CheckForDuplicatePortAndDataDirectoryAsWritten | gpMgmt/bin/go-tools/gpctl/cli/init.go:936-959 | the loop as written, the one the validation runs: ports looked up under the host name |
| SegmentChecks.AsWrittenMissesSharedPort | gpMgmt/bin/go-tools/gpctl/cli/init.go:951-956 | two segments of host sdw1 on address sdw1-1 and port 7000 pass the as-written check; the corrected check reports the duplicate port |
| SegmentChecks.CheckForDuplicatePortAndDataDirectory | gpMgmt/bin/go-tools/gpctl/cli/init.go:936-959 | the loop with ports looked up where they are recorded, under the address |
| SegmentChecks.CorrectedScanMeans | gpMgmt/bin/go-tools/gpctl/cli/init.go:936-959 | the corrected check passes exactly when data directories are unique per host name and no two segments share an address and port |
| SegmentChecks.RequestHostNames | gpMgmt/bin/go-tools/gpctl/cli/init.go:1005-1008 | the coordinator's host name first, then one per primary |
| SegmentChecks.RequestHostNamesMeans | gpMgmt/bin/go-tools/gpctl/cli/init.go:1005-1008 | the list holds exactly the cluster's host names |
| SegmentChecks.MissingServicesMeans | gpMgmt/bin/go-tools/gpctl/cli/init.go:1010-1014 | the reported names are sorted without repeats, and are exactly the listed names that have no configured service |
| SegmentChecks.DifferenceStrictlySorted | gpMgmt/bin/go-tools/gpctl/cli/init.go:1012-1014 | removing names from a duplicate-free sorted list keeps it so |
| SegmentChecks.IsGpServicesEnabled | gpMgmt/bin/go-tools/gpctl/cli/init.go:1004-1019 | no error exactly when every cluster host has a service configured; otherwise the error lists, sorted and once each, exactly the hosts that lack one |
| ClusterRequest.SegmentToIdl | gpMgmt/bin/go-tools/gpctl/cli/init.go:779-789 | nil stays nil; the port is cut to 32 bits, congruent to the original |
| ClusterRequest.SegmentToIdlRoundTrip | gpMgmt/bin/go-tools/gpctl/cli/init.go:779-789 | a segment whose port fits in 32 bits converts back to itself |
| ClusterRequest.SegmentToIdlWrapsPort | gpMgmt/bin/go-tools/gpctl/cli/init.go:785 | port 2^32 + 7000 reaches the hub as 7000 |
| ClusterRequest.SegmentPairToIdl | gpMgmt/bin/go-tools/gpctl/cli/init.go:791-796 | a missing half stays missing, a present half stays present |
| ClusterRequest.PairsToIdl | gpMgmt/bin/go-tools/gpctl/cli/init.go:764-766 | one request pair per configuration pair |
| ClusterRequest.PairsToIdlAt | gpMgmt/bin/go-tools/gpctl/cli/init.go:764-766 | request pair i is the conversion of configuration pair i |
| ClusterRequest.CreateMakeClusterReq | gpMgmt/bin/go-tools/gpctl/cli/init.go:762-777 | the request holds the converted coordinator, the converted pairs in order, the configuration's parameters and the two flags |
| ClusterRequest.RequestPairRoundTrip | gpMgmt/bin/go-tools/gpctl/cli/init.go:762-796 | with 32-bit ports, each request pair reads back as its configuration pair |
| InitValidation.FillPairs | gpMgmt/bin/go-tools/gpctl/cli/init.go:865-870 | writing validated segments back keeps the number of pairs |
| InitValidation.FillPairsPrimaries | gpMgmt/bin/go-tools/gpctl/cli/init.go:865-870 | the primaries after write-back are the first validated segments |
| InitValidation.FillPairsMirrors | gpMgmt/bin/go-tools/gpctl/cli/init.go:865-870 | the mirrors after write-back are the remaining validated segments |
| InitValidation.FilledSegments | gpMgmt/bin/go-tools/gpctl/cli/init.go:865-870 | after write-back, primaries then mirrors are exactly the validated list |
| InitValidation.FilledPairAt | gpMgmt/bin/go-tools/gpctl/cli/init.go:865-870 | each pair's primary and mirror are validated in place, a missing mirror staying missing |
| InitValidation.PairedMeans | gpMgmt/bin/go-tools/gpctl/cli/init.go:845-858 | the pair-count checks pass exactly when every pair has a primary and either all or none have a mirror |
| InitValidation.ValidateSegmentList | gpMgmt/bin/go-tools/gpctl/cli/init.go:865-870 | the loop validates segments in order and stops at the first error |
| InitValidation.ParamsCheckedMeans | gpMgmt/bin/go-tools/gpctl/cli/init.go:884-900 | the parameter stage passes exactly when the encoding, after defaulting, is not SQL_ASCII and max_connections is valid; segments are untouched |
| InitValidation.ParamsSettled | gpMgmt/bin/go-tools/gpctl/cli/init.go:884-900 | on success the encoding is set and not SQL_ASCII; max_connections and shared_buffers are in all three maps; existing settings are kept |
| InitValidation.HostsCheckedMeans | gpMgmt/bin/go-tools/gpctl/cli/init.go:872-900 | the stage after segment validation passes exactly when no data directory repeats on a host name, no segment's port was recorded earlier under an address equal to its host name (the lookup as written), every host has services, and the parameters pass |
| InitValidation.CheckedSegmentsAgree | gpMgmt/bin/go-tools/gpctl/cli/init.go:865-878 | the data-directory check and the as-written port lookup give the same answer on the validated segments as on the originals, an empty address read as the host name |
| InitValidation.FilledArrayMeans | gpMgmt/bin/go-tools/gpctl/cli/init.go:865-900 | after every segment passed, the host stage on the written-back array passes exactly when directories are unique per host name, no port is claimed under a host name an earlier segment's address equals, all hosts have services and the parameters pass |
| InitValidation.ArrayCheckedMeans | gpMgmt/bin/go-tools/gpctl/cli/init.go:865-900 | the segment-list stage passes exactly when every segment is complete, directories are unique per host name, no port is claimed under a host name an earlier segment's address equals, all hosts have services and the parameters pass |
| InitValidation.SegmentsCheckedMeans | gpMgmt/bin/go-tools/gpctl/cli/init.go:845-900 | after the locale step, validation passes exactly when there are primaries, the pairs are consistent, the coordinator and all segments are complete, directories are unique per host name, no port is claimed under a host name an earlier segment's address equals, all hosts have services and the parameters are valid |
| InitValidation.InputAcceptedExactly | gpMgmt/bin/go-tools/gpctl/cli/init.go:823-903 | the whole validation passes exactly on acceptable input: coordinator and primaries given, a locale available, and all the conditions above |
| InitValidation.AcceptedStages | gpMgmt/bin/go-tools/gpctl/cli/init.go:823-903 | an accepted request went through every stage in source order |
| InitValidation.InputAcceptedSegments | gpMgmt/bin/go-tools/gpctl/cli/init.go:823-903 | after acceptance the coordinator and every segment are their validated selves, pair by pair |
| InitValidation.InputAcceptedParams | gpMgmt/bin/go-tools/gpctl/cli/init.go:823-903 | after acceptance the locale is the given or system one, the encoding is set, and the defaults are in place |
| InitValidation.CheckParams | gpMgmt/bin/go-tools/gpctl/cli/init.go:884-900 | the parameter stage, in place |
| InitValidation.CheckHosts | gpMgmt/bin/go-tools/gpctl/cli/init.go:872-900 | the duplicate stage (the check as written, ports looked up by host name) and the services stage, in place |
| InitValidation.CheckSegments | gpMgmt/bin/go-tools/gpctl/cli/init.go:845-900 | the segment stage, in place |
| InitValidation.ValidateInputConfigAndSetDefaults | gpMgmt/bin/go-tools/gpctl/cli/init.go:823-903 | the request and error become those of InputChecked on the old request |

## Left out

- Logging (`elog`, `gplog`), `Assert`/`AssertImply` and the debug descriptions in the C file are not modelled.
- Backend state that the C file reads is passed in as parameters: the current distributed xid, the nesting
  level, and the snapshot. The transaction-manager calls are not modelled.
- `ereport(FATAL)` in `DtxContextInfo_CreateOnCoordinator` is a returned flag. The process exit is not modelled.
- `DistributedSnapshot` (cdbdistributedsnapshot.c) is not part of this model. `DistributedSnapshots` is a
  stand-in with a concrete layout. Its reset, copy, size, serialize and deserialize are proved about that
  layout, not about the real file.
- TMGIDSIZE (100), MAXFNAMELEN (64) and the snapshot-mode codes come from headers that are not part of this
  model. So do the Go `constants` values: the default segment name `gpseg`, `DefaultQdMaxConnect` 150,
  `QeConnectFactor` 3, `DefaultEncoding` `UTF-8`, `DefaultBuffer` `128000kB`, and the mirroring types. All
  of them are declared as constants.
- CdbDtxContextInfo.DtxContextInfo.Deserialize: requires the buffer to hold the bytes its header announces.
  The C code reads past the end of a short buffer; the model does not give that behaviour a meaning.
- CdbDtxContextInfo.DtxContextInfo.Serialize: the C code writes through a raw `char *`; the model writes
  into an `array` of bytes whose length is at least SerializeSize.
- The viper configuration parsing, `IsMultiHome` (an RPC), `LoadInputConfigToIdlFn`, `InitClusterServiceFn`,
  `RunInitClusterCmd`, the SSH hostname helpers and the clean-up commands in init.go are not modelled.
  They are I/O around the core.
- `SetDefaultLocaleFn` runs `/usr/bin/locale` and parses its output. It is the parameter `systemLocale`:
  `None` stands for a failure.
- `IsGpServicesEnabledFn` reads the package-level `Conf.Hostnames`. It is the parameter `configuredHostnames`.
- `filepath.Join` cleaning is not modelled. A segment directory is the configured directory, `/`, and the
  segment name; directories that end in `/` or contain `..` are not normalised.
- Go map iteration order is not fixed. `ListHostnames` picks keys in an arbitrary order, and the sort that
  follows makes the result independent of that order (`StringOrder.SortDependsOnlyOnElements`).
- The slices and maps the Go code shares between caller and callee are copied values in the model:
  - `slices.Sort(config.HostList)` in `ExpandSegPairArray` also sorts the caller's list, and the model
    does not show that.
  - `ValidateSegment` updates segments through pointers. The model writes the validated segments back into
    the request's pairs (`FillPairs`).
- InitConfigValidation.ValidateMultiHomeConfig: requires a non-empty address map, and a non-empty address
  list for each host. Go panics without them, indexing `addressLengthList[0]` or taking a remainder by zero.
- SegmentExpansion.ExpandMultiHomePrimaryArray and the two multi-home mirror methods: require every host to
  have at least one address. Go panics on a remainder by zero otherwise.
- SegmentExpansion.ExpandNonMultiHomeGroupMirrorList, SegmentExpansion.ExpandNonMultiHomeSpreadMirroring,
  SegmentExpansion.ExpandMultiHomeGroupMirrorList and SegmentExpansion.ExpandMultiHomeSpreadMirrorList: require
  at least hosts x mirror directories pairs to fill. Go indexes past the end of `segPairList` and panics
  otherwise. SegmentExpansion.ExpandSegPairArray requires as many mirror as primary directories when the
  cluster has mirrors, which the configuration checks establish before expansion.
- GoStrings.ToLower: lower-cases ASCII letters only. Go's `strings.ToLower` applies full Unicode case
  mapping, so a non-ASCII `mirroringType` is stored, and reported in the invalid-mirroring-type error,
  with its non-ASCII capitals unchanged.
- The `int` port arithmetic in the expansion (`base + segIdx`) is unbounded in the model. Go's 64-bit
  wrap-around cannot be reached with port values.

## Findings

| source | as written | input that shows it | evidently intended | confidence | as-written member | corrected member |
|---|---|---|---|---|---|---|
| gpMgmt/bin/go-tools/gpctl/cli/init.go:951-956 | ports are recorded in `hostToPort[seg.HostAddress]` but looked up in `hostToPort[seg.HostName]`, so a repeated port is never found unless the host name is itself used as an address | segments (host `sdw1`, address `sdw1-1`, port 7000, `/data/gpseg0`) and (host `sdw1`, address `sdw1-1`, port 7000, `/data/gpseg1`) pass the check | look the port up under the address it is recorded under, so two segments on one address cannot share a port | not executed | SegmentChecks.CheckForDuplicatePortAndDataDirectoryAsWritten, SegmentChecks.AsWrittenMissesSharedPort | SegmentChecks.CheckForDuplicatePortAndDataDirectory, SegmentChecks.CorrectedScanMeans |

`InitValidation` runs the duplicate check as written, as `ValidateInputConfigAndSetDefaultsFn` does
(init.go:874), so its acceptance conditions (`InitValidation.InputAcceptable`) use the host-name lookup.
The corrected check and the property it has are stated beside it in `SegmentChecks`.
